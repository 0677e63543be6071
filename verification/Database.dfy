/**
 The live database (bus.db): its tables, and polling, acknowledging and re-anchoring (lib/poll.js).

 `Tables` is a snapshot of the tables; class `Database` is the open handle whose tables the
 operations change in place.  Each SQL statement or transaction is one atomic update.
 */
module Database {
  import opened Events
  import opened Filters
  import opened Wrappers

  datatype Subscription = Subscription(plugin: string, filter: string, active: bool)
  datatype Cursor = Cursor(subscription: string, last: int, active: bool)

  datatype CursorInit = Latest | Oldest

  /** What `register` tells a subscriber about its cursor. */
  datatype Registration = Registration(cursorInit: CursorInit, lastEventId: nat)

  datatype Error =
    | InvalidInput                               // WB-001
    | BehindWindow(cursorLast: int, oldest: nat)    // WB-003
    | CursorNotFound                                // WB-006

  datatype Tables = Tables(
    events: seq<Event>,
    archive: map<nat, Event>,
    subscriptions: map<string, Subscription>,
    cursors: map<string, Cursor>,
    attempts: map<(string, nat), nat>)
  {
    ghost predicate Valid() {
      && Ascending(events)
      && (forall c | c in cursors :: cursors[c].subscription in subscriptions)
    }

    /** Both the cursor and its subscription are registered and not deregistered. */
    predicate Active(c: string) {
      && c in cursors && cursors[c].active
      && cursors[c].subscription in subscriptions && subscriptions[cursors[c].subscription].active
    }

    function FilterOf(c: string): (f: string)
      requires c in cursors && cursors[c].subscription in subscriptions
    {
      subscriptions[cursors[c].subscription].filter
    }

    /** The subscription filter of cursor `c` selects `e`. */
    predicate Wants(c: string, e: Event)
      requires c in cursors && cursors[c].subscription in subscriptions
    {
      Selects(FilterOf(c), e.etype, e.domain)
    }

    /** The rows cursor `c` has still to receive. */
    function Deliverable(c: string): (rows: seq<Event>)
      requires c in cursors && cursors[c].subscription in subscriptions
    {
      Above(c, cursors[c].last)
    }

    /** The rows above `floor` that the filter of `c` selects. */
    function Above(c: string, floor: int): (rows: seq<Event>)
      requires c in cursors && cursors[c].subscription in subscriptions
      ensures forall e :: e in rows <==> e in events && e.id > floor && Wants(c, e)
      ensures Ascending(events) ==> Ascending(rows)
    {
      Where(events, (e: Event) => e.id > floor && Wants(c, e))
    }

    function MoveCursor(c: string, position: int): Tables
      requires c in cursors
    {
      this.(cursors := cursors[c := cursors[c].(last := position)])
    }

    /** `poll`: a batch of rows above the cursor, or above `after` when it is given. */
    function Poll(c: string, batchSize: int, after: Option<int>): (r: Result<seq<Event>, Error>)
      requires Valid()
    {
      var limit := if batchSize == 0 then 100 else batchSize;
      if c !in cursors || !cursors[c].active then Err(CursorNotFound)
      else if events != [] && cursors[c].last < events[0].id - 1 then
        Err(BehindWindow(cursors[c].last, events[0].id))
      else
        Ok(Limit(Above(c, if after.Some? then after.value else cursors[c].last), limit))
    }
  }

  class Database {
    var events: seq<Event>
    var archive: map<nat, Event>
    var subscriptions: map<string, Subscription>
    var cursors: map<string, Cursor>
    var attempts: map<(string, nat), nat>

    function Snapshot(): Tables
      reads this
    {
      Tables(events, archive, subscriptions, cursors, attempts)
    }

    constructor ()
      ensures Snapshot() == Tables([], map[], map[], map[], map[])
      ensures Snapshot().Valid()
    {
      events, archive, subscriptions, cursors, attempts := [], map[], map[], map[], map[];
    }

    /**
     Insert the subscription and, for a subscriber, its cursor.  A cursor starts at the head only when
     `latest` is asked for by name; otherwise it starts at 0, also when the option is left out, which the
     result reports as `latest`.
     */
    method Register(sub: string, plugin: string, filter: string, cursor: Option<string>, init: Option<CursorInit>)
      returns (r: Option<Registration>)
      requires Snapshot().Valid() && sub !in subscriptions && (cursor.Some? ==> cursor.value !in cursors)
      modifies this`subscriptions, this`cursors
      ensures Snapshot() == Registered(old(Snapshot()), sub, plugin, filter, cursor, init)
      ensures r == if cursor.None? then None else Some(Reported(old(events), init))
    {
      subscriptions := subscriptions[sub := Subscription(plugin, filter, true)];
      if cursor.None? {
        return None;
      }
      var last := 0;
      if init == Some(Latest) && events != [] {
        last := events[|events| - 1].id;
      }
      cursors := cursors[cursor.value := Cursor(sub, last, true)];
      r := Some(Registration(if init.Some? then init.value else Latest, last));
    }

    method Ack(c: string, lastEventId: int) returns (r: Result<int, Error>)
      modifies this`cursors
      ensures r == if c in old(cursors) && old(cursors)[c].active then Ok(lastEventId) else Err(CursorNotFound)
      ensures r.Ok? ==> Snapshot() == old(Snapshot()).MoveCursor(c, lastEventId)
      ensures r.Err? ==> cursors == old(cursors)
    {
      if c !in cursors || !cursors[c].active {
        return Err(CursorNotFound);
      }
      cursors := cursors[c := cursors[c].(last := lastEventId)];
      r := Ok(lastEventId);
    }

    method ReanchorCursor(c: string, newLast: int) returns (r: Result<int, Error>)
      modifies this`cursors
      ensures r == if newLast < 0 then Err(InvalidInput)
                   else if c in old(cursors) && old(cursors)[c].active then Ok(newLast)
                   else Err(CursorNotFound)
      ensures r.Ok? ==> Snapshot() == old(Snapshot()).MoveCursor(c, newLast)
      ensures r.Err? ==> cursors == old(cursors)
    {
      if newLast < 0 {
        return Err(InvalidInput);
      }
      if c !in cursors || !cursors[c].active {
        return Err(CursorNotFound);
      }
      cursors := cursors[c := cursors[c].(last := newLast)];
      r := Ok(newLast);
    }

    /** Soft-delete a subscription and its cursors, in one transaction. */
    method Deregister(subscription: string) returns (r: Result<(), Error>)
      modifies this`cursors, this`subscriptions
      ensures r.Ok? <==> subscription in old(subscriptions)
      ensures r.Err? ==> Snapshot() == old(Snapshot()) && r.error == CursorNotFound
      ensures r.Ok? ==> Snapshot() == Deregistered(old(Snapshot()), {subscription})
    {
      if subscription !in subscriptions {
        return Err(CursorNotFound);
      }
      subscriptions := subscriptions[subscription := subscriptions[subscription].(active := false)];
      cursors := map c | c in cursors ::
        if cursors[c].subscription == subscription then cursors[c].(active := false) else cursors[c];
      r := Ok(());
    }

    /** Soft-delete every active subscription of a plugin; refuse when there is none. */
    method DeregisterByPlugin(plugin: string) returns (r: Result<set<string>, Error>)
      modifies this`cursors, this`subscriptions
      ensures r.Ok? <==> plugin != "" && exists s | s in old(subscriptions) ::
                                           old(subscriptions)[s].plugin == plugin && old(subscriptions)[s].active
      ensures r.Ok? ==>
                forall s :: s in r.value <==>
                  s in old(subscriptions) && old(subscriptions)[s].plugin == plugin && old(subscriptions)[s].active
      ensures r.Ok? ==> Snapshot() == Deregistered(old(Snapshot()), r.value)
      ensures r.Err? ==> r.error == (if plugin == "" then InvalidInput else CursorNotFound)
      ensures r.Err? ==> Snapshot() == old(Snapshot())
    {
      assert Deregistered(Snapshot(), {}) == Snapshot();
      if plugin == "" {
        return Err(InvalidInput);
      }
      var subs := set s | s in subscriptions && subscriptions[s].plugin == plugin && subscriptions[s].active;
      if subs == {} {
        return Err(CursorNotFound);
      }
      var todo := subs;
      while todo != {}
        invariant todo <= subs
        invariant Snapshot() == Deregistered(old(Snapshot()), subs - todo)
        decreases todo
      {
        var s :| s in todo;
        DeregisterOneMore(old(Snapshot()), subs - todo, s);
        assert subs - (todo - {s}) == (subs - todo) + {s};
        subscriptions := subscriptions[s := subscriptions[s].(active := false)];
        cursors := map c | c in cursors ::
          if cursors[c].subscription == s then cursors[c].(active := false) else cursors[c];
        assert Snapshot() == DeregisterOne(Deregistered(old(Snapshot()), subs - todo), s);
        todo := todo - {s};
      }
      assert subs - todo == subs;
      r := Ok(subs);
    }
  }

  function StartPosition(events: seq<Event>, init: Option<CursorInit>): (last: nat) {
    if init == Some(Latest) && events != [] then events[|events| - 1].id else 0
  }

  function Reported(events: seq<Event>, init: Option<CursorInit>): (r: Registration) {
    Registration(if init.Some? then init.value else Latest, StartPosition(events, init))
  }

  /** The id of the newest row. */
  function Head(events: seq<Event>): (id: nat) {
    if events == [] then 0 else events[|events| - 1].id
  }

  /**
   A cursor starts at the head exactly when `latest` is asked for by name or there is no row; so what is
   reported as `latest` is at the head exactly when the option is given or there is no row.
   */
  lemma StartsAtHeadExactly(t: Tables, init: Option<CursorInit>)
    requires t.Valid() && forall e | e in t.events :: e.id > 0
    ensures StartPosition(t.events, init) == Head(t.events) <==> init == Some(Latest) || t.events == []
    ensures var r := Reported(t.events, init);
            (r.cursorInit == Latest ==> r.lastEventId == Head(t.events)) <==> init.Some? || t.events == []
  {
    if t.events != [] { assert t.events[|t.events| - 1] in t.events; }
  }

  /** Without the option the result says 'latest', and the cursor has the whole log to receive. */
  lemma DefaultIsNotLatest(t: Tables, sub: string, plugin: string, c: string, e: Event)
    requires t.Valid() && sub !in t.subscriptions && c !in t.cursors && e in t.events && e.id > 0
    ensures var r := Registered(t, sub, plugin, "*", Some(c), None);
            Reported(t.events, None).cursorInit == Latest && r.Valid() && r.Active(c) && e in r.Deliverable(c)
  {
    assert SplitFilter("*") == ("*", None) by { assert IndexOf("*", '@') == 1; }
    NewCursorReceives(t, sub, plugin, "*", c, None);
  }

  /** The tables with the subscription and its cursor in. */
  function Registered(t: Tables, sub: string, plugin: string, filter: string, cursor: Option<string>,
                      init: Option<CursorInit>): (r: Tables)
  {
    t.(subscriptions := t.subscriptions[sub := Subscription(plugin, filter, true)],
       cursors := if cursor.None? then t.cursors
                  else t.cursors[cursor.value := Cursor(sub, StartPosition(t.events, init), true)])
  }

  /** A new cursor has nothing to receive when it starts at the head, and every matching live row otherwise. */
  lemma NewCursorReceives(t: Tables, sub: string, plugin: string, filter: string, c: string, init: Option<CursorInit>)
    requires t.Valid() && sub !in t.subscriptions && c !in t.cursors
    ensures var r := Registered(t, sub, plugin, filter, Some(c), init);
            && r.Valid() && r.Active(c)
            && (forall e :: e in r.Deliverable(c) <==>
                  init != Some(Latest) && e in t.events && e.id > 0 && Selects(filter, e.etype, e.domain))
            && (forall d | d in t.cursors :: d in r.cursors && r.Deliverable(d) == t.Deliverable(d))
  {
    var r := Registered(t, sub, plugin, filter, Some(c), init);
    if t.events != [] { HeadIsLast(t.events); }
    forall d | d in t.cursors ensures r.Deliverable(d) == t.Deliverable(d) {
      SameRows(r.Deliverable(d), t.Deliverable(d));
    }
  }

  lemma HeadIsLast(rows: seq<Event>)
    requires Ascending(rows) && rows != []
    ensures forall e | e in rows :: e.id <= rows[|rows| - 1].id
  {
    forall e | e in rows ensures e.id <= rows[|rows| - 1].id {
      var i :| 0 <= i < |rows| && rows[i] == e;
    }
  }

  /** The tables with the given subscriptions and all their cursors switched off. */
  function Deregistered(t: Tables, subs: set<string>): (r: Tables) {
    t.(subscriptions := map s | s in t.subscriptions ::
         if s in subs then t.subscriptions[s].(active := false) else t.subscriptions[s],
       cursors := map c | c in t.cursors ::
         if t.cursors[c].subscription in subs then t.cursors[c].(active := false) else t.cursors[c])
  }

  /** Ending subscriptions ends the cursors that are on them, and nothing else about them or any other changes. */
  lemma DeregisteredExactly(t: Tables, subs: set<string>, c: string)
    requires t.Valid()
    ensures var r := Deregistered(t, subs);
            && r.Valid() && r.events == t.events && r.archive == t.archive && r.attempts == t.attempts
            && r.subscriptions.Keys == t.subscriptions.Keys && r.cursors.Keys == t.cursors.Keys
            && (r.Active(c) <==> t.Active(c) && t.cursors[c].subscription !in subs)
            && (c in t.cursors ==>
                  && r.cursors[c].subscription == t.cursors[c].subscription && r.cursors[c].last == t.cursors[c].last
                  && (r.cursors[c].active <==> t.cursors[c].active && t.cursors[c].subscription !in subs)
                  && r.FilterOf(c) == t.FilterOf(c)
                  && (t.cursors[c].subscription in subs ==> r.Poll(c, 0, None) == Err(CursorNotFound)))
  {
  }

  /** A subscriber registers and its plugin then leaves: its subscription is ended, and its cursor answers no more. */
  method RegisterThenLeave(db: Database, sub: string, plugin: string, filter: string, c: string)
    returns (ended: set<string>, poll: Result<seq<Event>, Error>)
    requires db.Snapshot().Valid() && sub !in db.subscriptions && c !in db.cursors && plugin != ""
    modifies db
    ensures sub in ended && poll == Err(CursorNotFound)
    ensures forall s | s in old(db.subscriptions) ::
              s in ended <==> old(db.subscriptions)[s].plugin == plugin && old(db.subscriptions)[s].active
    ensures forall d | d in old(db.cursors) && old(db.cursors)[d].subscription !in ended ::
              d in db.cursors && db.cursors[d] == old(db.cursors)[d]
  {
    var _ := db.Register(sub, plugin, filter, Some(c), None);
    assert sub in db.subscriptions && db.subscriptions[sub] == Subscription(plugin, filter, true);
    var r := db.DeregisterByPlugin(plugin);
    ended := r.value;
    assert db.Snapshot().Valid();
    poll := db.Snapshot().Poll(c, 0, None);
  }

  /** The two UPDATEs of one subscription. */
  function DeregisterOne(t: Tables, s: string): (r: Tables)
    requires s in t.subscriptions
  {
    t.(subscriptions := t.subscriptions[s := t.subscriptions[s].(active := false)],
       cursors := map c | c in t.cursors ::
         if t.cursors[c].subscription == s then t.cursors[c].(active := false) else t.cursors[c])
  }

  lemma DeregisterOneMore(t: Tables, done: set<string>, s: string)
    requires s in t.subscriptions
    ensures DeregisterOne(Deregistered(t, done), s) == Deregistered(t, done + {s})
  {
    var a, b := DeregisterOne(Deregistered(t, done), s), Deregistered(t, done + {s});
    assert a.subscriptions == b.subscriptions;
    assert a.cursors == b.cursors;
  }

  // ---------------------------------------------------------------- what polling guarantees

  /** A poll returns matching rows in order, and skips none: what it leaves out comes later, behind a full batch. */
  lemma PollSkipsNothing(t: Tables, c: string, batchSize: int, after: Option<int>)
    requires t.Valid() && t.Poll(c, batchSize, after).Ok?
    ensures var rows := t.Poll(c, batchSize, after).value;
            var floor := if after.Some? then after.value else t.cursors[c].last;
            && Ascending(rows)
            && (forall e | e in rows :: e in t.events && e.id > floor && t.Wants(c, e))
            && (forall e | e in t.events && e.id > floor && t.Wants(c, e) && e !in rows ::
                  && rows != [] && |rows| == (if batchSize == 0 then 100 else batchSize)
                  && forall x | x in rows :: x.id < e.id)
  {
    var floor := if after.Some? then after.value else t.cursors[c].last;
    var limit := if batchSize == 0 then 100 else batchSize;
    LimitedSelection(t.events, (e: Event) => e.id > floor && t.Wants(c, e), limit);
  }

  /**
   WB-003 reports the oldest surviving row.  Moving the cursor just below it skips no live row, and
   polling then works for as long as rows are only appended.
   */
  lemma ReanchorRecovers(t: Tables, c: string, batchSize: int, later: seq<Event>)
    requires t.Valid() && t.Poll(c, batchSize, None).Err? && t.Poll(c, batchSize, None).error.BehindWindow?
    requires Ascending(t.events + later)
    ensures var floor := t.Poll(c, batchSize, None).error.oldest - 1;
            var moved := t.MoveCursor(c, floor);
            && floor > t.cursors[c].last
            && (forall e | e in t.events :: e.id > floor)
            && moved.Deliverable(c) == t.Above(c, t.cursors[c].last)
            && moved.(events := t.events + later).Valid()
            && moved.(events := t.events + later).Poll(c, batchSize, None).Ok?
  {
    var floor := t.events[0].id - 1;
    BehindMeans(t, c, batchSize);
    FirstIsLowest(t.events);
    MovedBelowAll(t, c, floor);
    MovedPollsOn(t, c, floor, batchSize, later);
  }

  lemma BehindMeans(t: Tables, c: string, batchSize: int)
    requires t.Valid() && t.Poll(c, batchSize, None).Err? && t.Poll(c, batchSize, None).error.BehindWindow?
    ensures c in t.cursors && t.cursors[c].active && t.events != [] && t.cursors[c].last < t.events[0].id - 1
    ensures t.Poll(c, batchSize, None).error.oldest == t.events[0].id
  {
  }

  lemma MovedPollsOn(t: Tables, c: string, floor: int, batchSize: int, later: seq<Event>)
    requires t.Valid() && t.events != [] && c in t.cursors && t.cursors[c].active && floor >= t.events[0].id - 1
    requires Ascending(t.events + later)
    ensures var moved := t.MoveCursor(c, floor).(events := t.events + later);
            moved.Valid() && moved.Poll(c, batchSize, None).Ok?
  {
    AppendedPoll(t.MoveCursor(c, floor), c, batchSize, later);
  }

  lemma FirstIsLowest(rows: seq<Event>)
    requires Ascending(rows) && rows != []
    ensures forall e | e in rows :: rows[0].id <= e.id
  {
    forall e | e in rows ensures rows[0].id <= e.id {
      var i :| 0 <= i < |rows| && rows[i] == e;
    }
  }

  /** A cursor moved to below every row still has the same rows to receive. */
  lemma MovedBelowAll(t: Tables, c: string, floor: int)
    requires t.Valid() && c in t.cursors && t.cursors[c].last < floor && forall e | e in t.events :: e.id > floor
    ensures t.MoveCursor(c, floor).Deliverable(c) == t.Above(c, t.cursors[c].last)
  {
    var moved := t.MoveCursor(c, floor);
    forall e ensures e in moved.Deliverable(c) <==> e in t.Above(c, t.cursors[c].last) {}
    SameRows(moved.Deliverable(c), t.Above(c, t.cursors[c].last));
  }

  lemma AppendedPoll(t: Tables, c: string, batchSize: int, later: seq<Event>)
    requires t.Valid() && t.events != [] && c in t.cursors && t.cursors[c].active
    requires t.cursors[c].last >= t.events[0].id - 1
    requires Ascending(t.events + later)
    ensures t.(events := t.events + later).Valid() && t.(events := t.events + later).Poll(c, batchSize, None).Ok?
  {
    assert (t.events + later)[0] == t.events[0];
  }

  /** An active cursor at or above the window is never told it is behind. */
  lemma BehindWindowExactly(t: Tables, c: string, batchSize: int, after: Option<int>)
    requires t.Valid() && c in t.cursors && t.cursors[c].active
    ensures (t.Poll(c, batchSize, after).Err? && t.Poll(c, batchSize, after).error.BehindWindow?)
       <==> t.events != [] && forall e | e in t.events :: t.cursors[c].last + 1 < e.id
  {
    if t.events != [] { assert t.events[0] in t.events; }
  }
}
