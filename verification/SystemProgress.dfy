/**
 What can still become of a booking: a PENDING booking can be decided exactly as long as its one unprocessed message can
 reach the broker. And what a FAILED row of booking-service means: that service has no direct publisher, so it is final.
 */
module SystemProgress {
  import opened Common
  import opened Messages
  import Outbox
  import OutboxInvariant
  import OutboxTheorems
  import OutboxLifetime
  import opened Bookings
  import opened Inventory
  import opened Notifications
  import Saga
  import SagaInvariant
  import SagaTheorems
  import opened System

  /******* What a step of the system is to each part *******/

  ghost function InsertOf(row: Option<NewRow>): Option<Outbox.Step> {
    if row.Some? then Some(BookingInsert(row.value)) else None
  }

  // The step of the booking outbox, if it takes one.
  ghost function BookingMove(s: State, step: Step): Option<Outbox.Step>
    requires Enabled(s, step)
  {
    match step
    case Local(d) =>
      if CanRun(s, d, 0, 0) then InsertOf(Added(s.saga.b.outbox, Saga.Apply(s.saga, d).b.outbox, BookingRow(d))) else None
    case Deliver(_, d, task, at) =>
      if CanRun(s, d, task, at) then InsertOf(Added(s.saga.b.outbox, Saga.Apply(s.saga, d).b.outbox, BookingRow(d))) else None
    case BookingSide(x) => Some(x)
    case EventSide(_) => None
  }

  ghost function InsertWithTask(row: Option<NewRow>, task: Id, at: Time): Option<Outbox.Step> {
    if row.Some? then Some(EventInsert(row.value, task, at)) else None
  }

  ghost function EventRowAdded(s: State, d: Saga.Step): Option<NewRow>
    requires Saga.Enabled(s.saga, d)
  {
    var saga := Saga.Apply(s.saga, d);
    Added(s.saga.e.outbox, saga.e.outbox, EventRow(s.saga, saga, d))
  }

  ghost function EventMove(s: State, step: Step): Option<Outbox.Step>
    requires Enabled(s, step)
  {
    match step
    case Local(d) =>
      if CanRun(s, d, 0, 0) then InsertWithTask(EventRowAdded(s, d), 0, 0) else None
    case Deliver(_, d, task, at) =>
      if CanRun(s, d, task, at) then InsertWithTask(EventRowAdded(s, d), task, at) else None
    case BookingSide(_) => None
    case EventSide(x) => Some(x)
  }

  ghost predicate BoxMoves(box: Outbox.Box, move: Option<Outbox.Step>, box': Outbox.Box) {
    match move
    case None => box' == box
    case Some(x) => Outbox.Enabled(box, x) && box' == Outbox.Apply(box, x)
  }

  lemma BookingMoves(s: State, step: Step)
    requires Enabled(s, step)
    ensures BoxMoves(s.bbox, BookingMove(s, step), Apply(s, step).bbox)
    ensures BookingMove(s, step).Some? && BookingMove(s, step).value.Insert? ==> BookingMove(s, step).value.task == None
  {
  }

  lemma EventMoves(s: State, step: Step)
    requires Enabled(s, step)
    ensures BoxMoves(s.ebox, EventMove(s, step), Apply(s, step).ebox)
  {
  }

  /******* FAILED rows of booking-service *******/

  lemma NoTaskAppears(box: Outbox.Box, move: Option<Outbox.Step>, box': Outbox.Box)
    requires box.direct == map[] && BoxMoves(box, move, box')
    requires move.Some? && move.value.Insert? ==> move.value.task == None
    ensures box'.direct == map[]
  {
  }

  lemma {:induction false} NoTasks(s: State, steps: seq<Step>)
    requires s.bbox.direct == map[] && Run(s, steps)
    ensures After(s, steps).bbox.direct == map[]
    decreases steps
  {
    if steps != [] {
      BookingMoves(s, steps[0]);
      NoTaskAppears(s.bbox, BookingMove(s, steps[0]), Apply(s, steps[0]).bbox);
      NoTasks(Apply(s, steps[0]), steps[1..]);
    }
  }

  lemma {:induction false} FailedStays(s: State, steps: seq<Step>, r: Id)
    requires Good(s) && s.bbox.direct == map[] && Run(s, steps)
    requires r in s.bbox.rows && s.bbox.rows[r].status == Outbox.Failed
    ensures r in After(s, steps).bbox.rows && After(s, steps).bbox.rows[r].status == Outbox.Failed
    decreases steps
  {
    if steps != [] {
      BookingMoves(s, steps[0]);
      NoTaskAppears(s.bbox, BookingMove(s, steps[0]), Apply(s, steps[0]).bbox);
      OutboxTheorems.ReachableInv(s.bbox);
      if BookingMove(s, steps[0]).Some? { OutboxLifetime.FailedRowMoves(s.bbox, BookingMove(s, steps[0]).value, r); }
      StepKeepsGood(s, steps[0]);
      FailedStays(Apply(s, steps[0]), steps[1..], r);
    }
  }

  lemma StartIsGood()
    ensures Good(START)
  {
    assert Saga.Run(Saga.START, []) && Saga.After(Saga.START, []) == Saga.START;
    assert Outbox.Run(Outbox.EMPTY, []) && Outbox.After(Outbox.EMPTY, []) == Outbox.EMPTY;
  }

  lemma ReachableGood(s: State)
    requires Reachable(s)
    ensures Good(s) && s.bbox.direct == map[]
  {
    var steps :| Run(START, steps) && After(START, steps) == s;
    StartIsGood();
    RunKeepsGood(START, steps);
    NoTasks(START, steps);
  }

  // In booking-service no insert carries a direct task, so a FAILED row stays FAILED in every run.
  lemma BookingFailedIsFinal(s: State, steps: seq<Step>, r: Id)
    requires Reachable(s) && Run(s, steps) && r in s.bbox.rows && s.bbox.rows[r].status == Outbox.Failed
    ensures r in After(s, steps).bbox.rows && After(s, steps).bbox.rows[r].status == Outbox.Failed
  {
    ReachableGood(s);
    FailedStays(s, steps, r);
  }

  /******* Nothing is processed that was not published *******/

  ghost predicate ProcessedWasLogged(outbox: map<Id, Message>, inbox: set<Id>, log: seq<Outbox.Entry>) {
    forall r :: r in outbox && outbox[r].Key() in inbox ==> OutboxInvariant.Logged(log, r)
  }

  ghost predicate Sound(s: State) {
    && Good(s)
    && ProcessedWasLogged(s.saga.b.outbox, s.saga.e.inbox, s.bbox.log)
    && ProcessedWasLogged(s.saga.b.outbox, s.saga.n.inbox, s.bbox.log)
    && ProcessedWasLogged(s.saga.e.outbox, s.saga.b.inbox, s.ebox.log)
  }

  // What a saga step adds to an outbox is new to the inbox it is meant for.
  ghost predicate OutboxGrows(outbox: map<Id, Message>, outbox': map<Id, Message>, inbox: set<Id>) {
    && (forall r :: r in outbox ==> r in outbox' && outbox'[r] == outbox[r])
    && (forall r :: r in outbox' && r !in outbox ==> outbox'[r].Key() !in inbox)
  }

  lemma BookingRowsAreNew(s: Saga.State, step: Saga.Step, inbox: set<Id>)
    requires Saga.Enabled(s, step) && inbox in {s.e.inbox, s.n.inbox}
    ensures var outbox := Saga.Apply(s, step).b.outbox;
            forall r :: r in outbox && r !in s.b.outbox ==> outbox[r].Key() !in inbox
  {
  }

  lemma BookingOutboxGrows(s: Saga.State, step: Saga.Step, inbox: set<Id>)
    requires Saga.Enabled(s, step) && inbox in {s.e.inbox, s.n.inbox}
    ensures OutboxGrows(s.b.outbox, Saga.Apply(s, step).b.outbox, inbox)
  {
    SagaTheorems.StepRetains(s, step);
    BookingRowsAreNew(s, step, inbox);
  }

  lemma EventOutboxGrows(s: Saga.State, step: Saga.Step)
    requires Saga.Enabled(s, step)
    ensures OutboxGrows(s.e.outbox, Saga.Apply(s, step).e.outbox, s.b.inbox)
  {
    SagaTheorems.StepRetains(s, step);
    StepWritesOnlyItsRow(s, step);
  }

  lemma EventInboxGrows(s: Saga.State, step: Saga.Step)
    requires Saga.Enabled(s, step)
    ensures if step.OnReserve? || step.OnCancelled?
            then Saga.Apply(s, step).e.inbox <= s.e.inbox + {step.m.Key()} && Saga.Apply(s, step).b == s.b
            else Saga.Apply(s, step).e.inbox == s.e.inbox
  {
  }

  lemma BookingInboxGrows(s: Saga.State, step: Saga.Step)
    requires Saga.Enabled(s, step)
    ensures if step.OnSeatsReserved? || step.OnSeatsRefused?
            then Saga.Apply(s, step).b.inbox <= s.b.inbox + {step.m.Key()} && Saga.Apply(s, step).e == s.e
            else Saga.Apply(s, step).b.inbox == s.b.inbox
  {
  }

  lemma NoteInboxGrows(s: Saga.State, step: Saga.Step)
    requires Saga.Enabled(s, step)
    ensures if step.Notify? then Saga.Apply(s, step).n.inbox <= s.n.inbox + {step.m.Key()} && Saga.Apply(s, step).b == s.b
            else Saga.Apply(s, step).n.inbox == s.n.inbox
  {
  }

  lemma NewRowsAreUnprocessed(outbox: map<Id, Message>, outbox': map<Id, Message>, inbox: set<Id>, log: seq<Outbox.Entry>)
    requires ProcessedWasLogged(outbox, inbox, log) && OutboxGrows(outbox, outbox', inbox)
    ensures ProcessedWasLogged(outbox', inbox, log)
  {
    forall r | r in outbox' && outbox'[r].Key() in inbox ensures OutboxInvariant.Logged(log, r) { assert r in outbox; }
  }

  lemma DeliveredWasLogged(outbox: map<Id, Message>, inbox: set<Id>, inbox': set<Id>, log: seq<Outbox.Entry>, row: Id)
    requires ProcessedWasLogged(outbox, inbox, log) && SagaInvariant.KeysDistinct(outbox)
    requires row in outbox && inbox' <= inbox + {outbox[row].Key()} && OutboxInvariant.Logged(log, row)
    ensures ProcessedWasLogged(outbox, inbox', log)
  {
    forall r | r in outbox && outbox[r].Key() in inbox' ensures OutboxInvariant.Logged(log, r) {
      if outbox[r].Key() !in inbox { assert r == row; }
    }
  }

  lemma LogsGrow(outbox: map<Id, Message>, inbox: set<Id>, log: seq<Outbox.Entry>, log': seq<Outbox.Entry>)
    requires ProcessedWasLogged(outbox, inbox, log) && log <= log'
    ensures ProcessedWasLogged(outbox, inbox, log')
  {
    forall r | r in outbox && outbox[r].Key() in inbox ensures OutboxInvariant.Logged(log', r) {
      OutboxInvariant.LoggedGrows(log, log', r);
    }
  }

  // The saga step of a transaction, and where its message came from.
  ghost predicate Carries(s: State, d: Saga.Step) {
    && Saga.Enabled(s.saga, d)
    && (IsDelivery(d) ==> OutboxInvariant.Logged(LogFor(s, d), d.row))
  }

  lemma ReachableKeys(s: Saga.State)
    requires Saga.Reachable(s)
    ensures SagaInvariant.KeysDistinct(s.b.outbox) && SagaInvariant.KeysDistinct(s.e.outbox)
  {
    SagaTheorems.ReachableCore(s);
  }

  lemma TransactionKeepsBookingRows(s: State, d: Saga.Step)
    requires Sound(s) && Carries(s, d)
    ensures ProcessedWasLogged(Saga.Apply(s.saga, d).b.outbox, Saga.Apply(s.saga, d).e.inbox, s.bbox.log)
  {
    ReachableKeys(s.saga);
    BookingOutboxGrows(s.saga, d, s.saga.e.inbox);
    EventInboxGrows(s.saga, d);
    if d.OnReserve? || d.OnCancelled? {
      DeliveredWasLogged(s.saga.b.outbox, s.saga.e.inbox, Saga.Apply(s.saga, d).e.inbox, s.bbox.log, d.row);
    } else {
      NewRowsAreUnprocessed(s.saga.b.outbox, Saga.Apply(s.saga, d).b.outbox, s.saga.e.inbox, s.bbox.log);
    }
  }

  lemma TransactionKeepsNotedRows(s: State, d: Saga.Step)
    requires Sound(s) && Carries(s, d)
    ensures ProcessedWasLogged(Saga.Apply(s.saga, d).b.outbox, Saga.Apply(s.saga, d).n.inbox, s.bbox.log)
  {
    ReachableKeys(s.saga);
    BookingOutboxGrows(s.saga, d, s.saga.n.inbox);
    NoteInboxGrows(s.saga, d);
    if d.Notify? {
      DeliveredWasLogged(s.saga.b.outbox, s.saga.n.inbox, Saga.Apply(s.saga, d).n.inbox, s.bbox.log, d.row);
    } else {
      NewRowsAreUnprocessed(s.saga.b.outbox, Saga.Apply(s.saga, d).b.outbox, s.saga.n.inbox, s.bbox.log);
    }
  }

  lemma TransactionKeepsEventRows(s: State, d: Saga.Step)
    requires Sound(s) && Carries(s, d)
    ensures ProcessedWasLogged(Saga.Apply(s.saga, d).e.outbox, Saga.Apply(s.saga, d).b.inbox, s.ebox.log)
  {
    ReachableKeys(s.saga);
    EventOutboxGrows(s.saga, d);
    BookingInboxGrows(s.saga, d);
    if d.OnSeatsReserved? || d.OnSeatsRefused? {
      DeliveredWasLogged(s.saga.e.outbox, s.saga.b.inbox, Saga.Apply(s.saga, d).b.inbox, s.ebox.log, d.row);
    } else {
      NewRowsAreUnprocessed(s.saga.e.outbox, Saga.Apply(s.saga, d).e.outbox, s.saga.b.inbox, s.ebox.log);
    }
  }

  lemma DeliveryCarries(s: State, step: Step)
    requires Good(s) && step.Deliver? && Enabled(s, step)
    ensures Carries(s, step.step)
  {
    DeliveryIsEnabled(s, step);
    assert LogFor(s, step.step)[step.entry].via.row == step.step.row;
  }

  predicate IsTransaction(step: Step, d: Saga.Step, task: Id, at: Time) {
    match step
    case Local(x) => x == d && task == 0 && at == 0
    case Deliver(_, x, t, moment) => x == d && t == task && moment == at
    case _ => false
  }

  // A transaction changes the databases and adds a row; it publishes nothing.
  lemma TransactionApplies(s: State, step: Step, d: Saga.Step, task: Id, at: Time)
    requires Good(s) && Enabled(s, step)
    requires IsTransaction(step, d, task, at)
    ensures CanRun(s, d, task, at) && Apply(s, step) == Business(s, d, task, at)
    ensures Apply(s, step).saga == Saga.Apply(s.saga, d)
    ensures Apply(s, step).bbox.log == s.bbox.log && Apply(s, step).ebox.log == s.ebox.log
  {
    EveryTransactionRuns(s, step);
  }

  lemma TransactionKeepsSound(s: State, step: Step, d: Saga.Step, task: Id, at: Time)
    requires Sound(s) && Enabled(s, step)
    requires IsTransaction(step, d, task, at)
    ensures Sound(Apply(s, step))
  {
    StepKeepsGood(s, step);
    if step.Deliver? { DeliveryCarries(s, step); }
    TransactionApplies(s, step, d, task, at);
    TransactionKeepsBookingRows(s, d);
    TransactionKeepsNotedRows(s, d);
    TransactionKeepsEventRows(s, d);
  }

  lemma StepKeepsSound(s: State, step: Step)
    requires Sound(s) && Enabled(s, step)
    ensures Sound(Apply(s, step))
  {
    match step
    case Local(d) => TransactionKeepsSound(s, step, d, 0, 0);
    case Deliver(_, d, task, at) => TransactionKeepsSound(s, step, d, task, at);
    case BookingSide(x) =>
      StepKeepsGood(s, step);
      OutboxInvariant.StepMovesLog(s.bbox, x);
      LogsGrow(s.saga.b.outbox, s.saga.e.inbox, s.bbox.log, Apply(s, step).bbox.log);
      LogsGrow(s.saga.b.outbox, s.saga.n.inbox, s.bbox.log, Apply(s, step).bbox.log);
    case EventSide(x) =>
      StepKeepsGood(s, step);
      OutboxInvariant.StepMovesLog(s.ebox, x);
      LogsGrow(s.saga.e.outbox, s.saga.b.inbox, s.ebox.log, Apply(s, step).ebox.log);
  }

  lemma {:induction false} RunKeepsSound(s: State, steps: seq<Step>)
    requires Sound(s) && Run(s, steps)
    ensures Sound(After(s, steps))
    decreases steps
  {
    if steps != [] {
      StepKeepsSound(s, steps[0]);
      RunKeepsSound(Apply(s, steps[0]), steps[1..]);
    }
  }

  // No consumer has processed a message that its producer's log does not hold.
  lemma ReachableSound(s: State)
    requires Reachable(s)
    ensures Sound(s)
  {
    var steps :| Run(START, steps) && After(START, steps) == s;
    StartIsGood();
    RunKeepsSound(START, steps);
  }

  /******* A message that cannot reach the broker *******/

  ghost predicate Stuck(box: Outbox.Box, r: Id, m: Message) {
    r in box.rows && box.rows[r].message == m && !OutboxLifetime.Deliverable(box, r)
  }

  lemma MoveKeepsStuck(box: Outbox.Box, move: Option<Outbox.Step>, box': Outbox.Box, r: Id, m: Message)
    requires Outbox.Reachable(box) && Stuck(box, r, m) && BoxMoves(box, move, box')
    ensures Stuck(box', r, m)
  {
    OutboxTheorems.ReachableInv(box);
    if move.Some? {
      OutboxLifetime.StuckStaysStuck(box, move.value, r);
      OutboxInvariant.StepCarriesRows(box, move.value);
    }
  }

  lemma {:induction false} BookingRowStuckForever(s: State, steps: seq<Step>, r: Id, m: Message)
    requires Good(s) && Run(s, steps) && Stuck(s.bbox, r, m)
    ensures Stuck(After(s, steps).bbox, r, m)
    decreases steps
  {
    if steps != [] {
      var next := Apply(s, steps[0]);
      StepKeepsGood(s, steps[0]);
      BookingMoves(s, steps[0]);
      MoveKeepsStuck(s.bbox, BookingMove(s, steps[0]), next.bbox, r, m);
      BookingRowStuckForever(next, steps[1..], r, m);
    }
  }

  lemma {:induction false} EventRowStuckForever(s: State, steps: seq<Step>, r: Id, m: Message)
    requires Good(s) && Run(s, steps) && Stuck(s.ebox, r, m)
    ensures Stuck(After(s, steps).ebox, r, m)
    decreases steps
  {
    if steps != [] {
      var next := Apply(s, steps[0]);
      StepKeepsGood(s, steps[0]);
      EventMoves(s, steps[0]);
      MoveKeepsStuck(s.ebox, EventMove(s, steps[0]), next.ebox, r, m);
      EventRowStuckForever(next, steps[1..], r, m);
    }
  }

  /******* The one message a PENDING booking waits for *******/

  ghost predicate IsPending(s: Saga.State, b: Id) {
    b in s.b.bookings && s.b.bookings[b].status == Pending
  }

  ghost predicate IsDecided(s: Saga.State, b: Id) {
    b in s.b.bookings && s.b.bookings[b].status != Pending
  }

  // A decided booking waits for nothing.
  lemma DecidedWaitsForNothing(s: Saga.State, b: Id, reply: bool, r: Id)
    requires Saga.Reachable(s) && IsDecided(s, b)
    ensures !SagaTheorems.WaitsFor(s, b, reply, r)
  {
    SagaTheorems.ReachableCore(s);
    SagaTheorems.ReserveRows(s, b);
    SagaTheorems.ReplySet(s, b);
    assert SagaInvariant.BookingOk(s, b);
    assert SagaInvariant.StatusOk(s, b, s.b.bookings[b], s.trails[b]);
  }

  // The message of row r can still reach the broker of its producer.
  ghost predicate CanReachBroker(s: State, reply: bool, r: Id) {
    if reply then r in s.ebox.rows && OutboxLifetime.Deliverable(s.ebox, r)
    else r in s.bbox.rows && OutboxLifetime.Deliverable(s.bbox, r)
  }

  ghost predicate MessageAlive(s: State, b: Id) {
    exists reply, r :: SagaTheorems.WaitsFor(s.saga, b, reply, r) && CanReachBroker(s, reply, r)
  }

  lemma RowIsInBox(box: Outbox.Box, outbox: map<Id, Message>, r: Id)
    requires Outbox.Content(box.rows) == outbox
    ensures r in outbox <==> r in box.rows
    ensures r in outbox ==> box.rows[r].message == outbox[r]
  {
    ContentMatches(box.rows, outbox);
  }

  /******* Without it the booking stays PENDING *******/

  lemma DeadReserveMessage(s: State, steps: seq<Step>, b: Id, r: Id)
    requires Sound(s) && Run(s, steps) && SagaTheorems.WaitsFor(s.saga, b, false, r) && !CanReachBroker(s, false, r)
    ensures !IsDecided(After(s, steps).saga, b)
  {
    var m := s.saga.b.outbox[r];
    var s' := After(s, steps);
    RowIsInBox(s.bbox, s.saga.b.outbox, r);
    BookingRowStuckForever(s, steps, r, m);
    RunKeepsSound(s, steps);
    RowIsInBox(s'.bbox, s'.saga.b.outbox, r);
    if IsDecided(s'.saga, b) { DecidedWaitsForNothing(s'.saga, b, false, r); }
  }

  lemma DeadReply(s: State, steps: seq<Step>, b: Id, r: Id)
    requires Sound(s) && Run(s, steps) && SagaTheorems.WaitsFor(s.saga, b, true, r) && !CanReachBroker(s, true, r)
    ensures !IsDecided(After(s, steps).saga, b)
  {
    var m := s.saga.e.outbox[r];
    var s' := After(s, steps);
    RowIsInBox(s.ebox, s.saga.e.outbox, r);
    EventRowStuckForever(s, steps, r, m);
    RunKeepsSound(s, steps);
    RowIsInBox(s'.ebox, s'.saga.e.outbox, r);
    if IsDecided(s'.saga, b) { DecidedWaitsForNothing(s'.saga, b, true, r); }
  }

  /******* With it some run decides the booking *******/

  function OnBookingSide(steps: seq<Outbox.Step>): seq<Step> {
    if steps == [] then [] else [BookingSide(steps[0])] + OnBookingSide(steps[1..])
  }

  function OnEventSide(steps: seq<Outbox.Step>): seq<Step> {
    if steps == [] then [] else [EventSide(steps[0])] + OnEventSide(steps[1..])
  }

  // Every dispatcher claims as many rows as the services set.
  predicate UsualBox(x: Outbox.Step) {
    x.Lock? ==> x.limit == Outbox.CLAIM_LIMIT
  }

  predicate Usual(steps: seq<Step>) {
    forall step :: step in steps ==> (step.BookingSide? || step.EventSide? ==> UsualBox(step.box))
  }

  lemma {:induction false} BookingSideRuns(s: State, steps: seq<Outbox.Step>)
    requires Outbox.Run(s.bbox, steps) && OutboxLifetime.Usual(steps)
    ensures Run(s, OnBookingSide(steps)) && Usual(OnBookingSide(steps))
    ensures After(s, OnBookingSide(steps)) == s.(bbox := Outbox.After(s.bbox, steps))
    decreases steps
  {
    if steps != [] {
      assert steps[0] in steps && forall x :: x in steps[1..] ==> x in steps;
      assert OnBookingSide(steps)[1..] == OnBookingSide(steps[1..]);
      BookingSideRuns(s.(bbox := Outbox.Apply(s.bbox, steps[0])), steps[1..]);
    }
  }

  lemma {:induction false} EventSideRuns(s: State, steps: seq<Outbox.Step>)
    requires Outbox.Run(s.ebox, steps) && OutboxLifetime.Usual(steps)
    ensures Run(s, OnEventSide(steps)) && Usual(OnEventSide(steps))
    ensures After(s, OnEventSide(steps)) == s.(ebox := Outbox.After(s.ebox, steps))
    decreases steps
  {
    if steps != [] {
      assert steps[0] in steps && forall x :: x in steps[1..] ==> x in steps;
      assert OnEventSide(steps)[1..] == OnEventSide(steps[1..]);
      EventSideRuns(s.(ebox := Outbox.Apply(s.ebox, steps[0])), steps[1..]);
    }
  }

  lemma {:induction false} RunJoin(s: State, a: seq<Step>, b: seq<Step>)
    requires Run(s, a) && Run(After(s, a), b)
    ensures Run(s, a + b) && After(s, a + b) == After(After(s, a), b)
    decreases a
  {
    if a == [] {
      assert a + b == b;
    } else {
      assert (a + b)[1..] == a[1..] + b;
      RunJoin(Apply(s, a[0]), a[1..], b);
    }
  }

  lemma RunThen(s: State, a: seq<Step>, step: Step)
    requires Run(s, a) && Enabled(After(s, a), step)
    ensures Run(s, a + [step]) && After(s, a + [step]) == Apply(After(s, a), step)
  {
    assert [step][1..] == [];
    RunJoin(s, a, [step]);
  }

  function Keys(outbox: map<Id, Message>): set<Id> {
    set r | r in outbox :: outbox[r].Key()
  }

  lemma FreshBookingDraw(s: Saga.State) returns (draw: Saga.Draw)
    ensures Saga.FreshForBookings(s, draw)
  {
    var x := OutboxLifetime.Above(s.b.outbox.Keys + Keys(s.b.outbox) + s.e.inbox + s.n.inbox);
    draw := Saga.Draw(x, x, 0);
    forall r | r in s.b.outbox ensures s.b.outbox[r].Key() != x { assert s.b.outbox[r].Key() in Keys(s.b.outbox); }
  }

  lemma FreshEventDraw(s: Saga.State) returns (draw: Saga.Draw)
    ensures Saga.FreshForEvents(s, draw)
  {
    var x := OutboxLifetime.Above(s.e.outbox.Keys + Keys(s.e.outbox) + s.b.inbox);
    draw := Saga.Draw(x, x, 0);
    forall r | r in s.e.outbox ensures s.e.outbox[r].Key() != x { assert s.e.outbox[r].Key() in Keys(s.e.outbox); }
  }

  /******* Whatever is on a log can be delivered *******/

  // A consumer can take this step on entry i, whatever it sees and whenever it builds its reply.
  ghost predicate Takes(s: State, i: nat, d: Saga.Step, task: Id) {
    forall at :: Enabled(s, Deliver(i, d, task, at))
  }

  ghost predicate TakesReserve(s: State, i: nat, r: Id, m: Message, success: Saga.Draw, failure: Saga.Draw, task: Id) {
    forall seen, at :: Enabled(s, Deliver(i, Saga.OnReserve(r, m, success, failure, seen), task, at))
  }

  lemma ReserveCanBeDelivered(s: State, i: nat) returns (success: Saga.Draw, failure: Saga.Draw, task: Id)
    requires i < |s.bbox.log| && s.bbox.log[i].message.topic == ReserveSeats
    ensures TakesReserve(s, i, s.bbox.log[i].via.row, s.bbox.log[i].message, success, failure, task)
  {
    success := FreshEventDraw(s.saga);
    failure := success;
    task := OutboxLifetime.Above(s.ebox.direct.Keys);
  }

  lemma ReplyCanBeDelivered(s: State, i: nat) returns (draw: Saga.Draw)
    requires i < |s.ebox.log| && s.ebox.log[i].message.topic in {SeatsReserved, SeatReservationFailed}
    ensures Takes(s, i, Reply(s.ebox.log[i], draw), 0)
  {
    draw := FreshBookingDraw(s.saga);
  }

  function Reply(e: Outbox.Entry, draw: Saga.Draw): Saga.Step {
    if e.message.topic == SeatsReserved then Saga.OnSeatsReserved(e.via.row, e.message, draw)
    else Saga.OnSeatsRefused(e.via.row, e.message, draw)
  }

  lemma BookingTopics(s: State, i: nat)
    requires Reachable(s) && i < |s.bbox.log|
    ensures s.bbox.log[i].message.topic in {ReserveSeats, BookingConfirmed, BookingFailed, BookingCancelled}
  {
    ReachableGood(s);
    EntryIsDelivered(s, s.saga.b.outbox, s.bbox, i);
    SagaTheorems.ReachableCore(s.saga);
  }

  lemma EventTopics(s: State, i: nat)
    requires Reachable(s) && i < |s.ebox.log|
    ensures s.ebox.log[i].message.topic in {SeatsReserved, SeatReservationFailed}
  {
    ReachableGood(s);
    EntryIsDelivered(s, s.saga.e.outbox, s.ebox, i);
    SagaTheorems.ReachableCore(s.saga);
    assert SagaInvariant.EventRowOk(s.saga, s.ebox.log[i].via.row);
  }

  // Every message on the log of booking-service has its consumers, and each of them can receive it at any time, again and
  // again: event-service the reservations and cancellations, notification-service all but the reservations.
  lemma BookingEntriesCanBeDelivered(s: State, i: nat)
    requires Reachable(s) && i < |s.bbox.log|
    ensures var r, m := s.bbox.log[i].via.row, s.bbox.log[i].message;
            && m.topic in {ReserveSeats, BookingConfirmed, BookingFailed, BookingCancelled}
            && (m.topic == ReserveSeats ==> exists success, failure, task :: TakesReserve(s, i, r, m, success, failure, task))
            && (m.topic == BookingCancelled ==> Takes(s, i, Saga.OnCancelled(r, m), 0))
            && (m.topic != ReserveSeats ==> Takes(s, i, Saga.Notify(r, m), 0))
  {
    BookingTopics(s, i);
    if s.bbox.log[i].message.topic == ReserveSeats { var success, failure, task := ReserveCanBeDelivered(s, i); }
  }

  // So has every message on the log of event-service: booking-service.
  lemma EventEntriesCanBeDelivered(s: State, i: nat)
    requires Reachable(s) && i < |s.ebox.log|
    ensures s.ebox.log[i].message.topic in {SeatsReserved, SeatReservationFailed}
    ensures exists draw :: Takes(s, i, Reply(s.ebox.log[i], draw), 0)
  {
    EventTopics(s, i);
    var draw := ReplyCanBeDelivered(s, i);
  }

  // A delivery to notification-service stores what the message reports, unless it was processed before.
  lemma DeliveredNotesAreStored(s: State, i: nat, at: Time)
    requires Reachable(s) && i < |s.bbox.log| && s.bbox.log[i].message.topic != ReserveSeats
    ensures var r, m := s.bbox.log[i].via.row, s.bbox.log[i].message;
            var step := Deliver(i, Saga.Notify(r, m), 0, at);
            && Enabled(s, step)
            && Apply(s, step).saga.n.inbox == s.saga.n.inbox + {m.envelope.messageId}
            && var p := m.envelope.payload;
               Apply(s, step).saga.n.notes
               == if m.envelope.messageId in s.saga.n.inbox then s.saga.n.notes
                  else s.saga.n.notes[m.envelope.messageId :=
                         Note(if m.topic == BookingConfirmed then ConfirmedNote
                              else if m.topic == BookingFailed then FailedNote else CancelledNote,
                              m.envelope.correlationId, p.bookingId, p.eventId,
                              if m.topic == BookingFailed then Some(p.reason) else None)]
  {
    ReachableGood(s);
    BookingEntriesCanBeDelivered(s, i);
    EntryIsDelivered(s, s.saga.b.outbox, s.bbox, i);
    var r, m := s.bbox.log[i].via.row, s.bbox.log[i].message;
    assert Takes(s, i, Saga.Notify(r, m), 0);
    TransactionApplies(s, Deliver(i, Saga.Notify(r, m), 0, at), Saga.Notify(r, m), 0, at);
    SagaTheorems.ReachableNotes(s.saga);
  }

  ghost predicate DecidesBy(s: State, steps: seq<Step>, b: Id) {
    Run(s, steps) && IsDecided(After(s, steps).saga, b)
  }

  // The reply is in the log: its delivery decides the booking.
  lemma LoggedReplyDecides(s: State, b: Id, q: Id, i: nat) returns (step: Step)
    requires Sound(s) && IsPending(s.saga, b) && SagaTheorems.WaitsFor(s.saga, b, true, q)
    requires i < |s.ebox.log| && s.ebox.log[i].via.row == q
    ensures Enabled(s, step) && IsDecided(Apply(s, step).saga, b) && step.Deliver?
  {
    var m := s.ebox.log[i].message;
    var draw := FreshBookingDraw(s.saga);
    EntryIsDelivered(s, s.saga.e.outbox, s.ebox, i);
    var topic := m.topic;
    var d := if topic == SeatsReserved then Saga.OnSeatsReserved(q, m, draw) else Saga.OnSeatsRefused(q, m, draw);
    step := Deliver(i, d, 0, 0);
    assert Enabled(s, step);
    TransactionApplies(s, step, d, 0, 0);
    SagaTheorems.ReplyDecidesBooking(s.saga, q, m, draw, topic);
  }

  lemma AliveReplyDecides(s: State, b: Id, q: Id) returns (steps: seq<Step>)
    requires Sound(s) && IsPending(s.saga, b) && SagaTheorems.WaitsFor(s.saga, b, true, q) && CanReachBroker(s, true, q)
    ensures DecidesBy(s, steps, b) && Usual(steps)
  {
    OutboxTheorems.ReachableInv(s.ebox);
    var publish := OutboxLifetime.CanPublish(s.ebox, q);
    EventSideRuns(s, publish);
    var t := After(s, OnEventSide(publish));
    RunKeepsSound(s, OnEventSide(publish));
    var i :| 0 <= i < |t.ebox.log| && t.ebox.log[i].via.row == q;
    var step := LoggedReplyDecides(t, b, q, i);
    RunThen(s, OnEventSide(publish), step);
    steps := OnEventSide(publish) + [step];
  }

  // The reserve message is in the log: its delivery is answered by a reply that can reach the broker.
  lemma LoggedReserveIsAnswered(s: State, b: Id, r: Id, i: nat) returns (step: Step, q: Id)
    requires Sound(s) && IsPending(s.saga, b) && SagaTheorems.WaitsFor(s.saga, b, false, r)
    requires i < |s.bbox.log| && s.bbox.log[i].via.row == r
    ensures Enabled(s, step) && IsPending(Apply(s, step).saga, b) && step.Deliver?
    ensures SagaTheorems.WaitsFor(Apply(s, step).saga, b, true, q) && CanReachBroker(Apply(s, step), true, q)
  {
    var m := s.bbox.log[i].message;
    var draw := FreshEventDraw(s.saga);
    var task := OutboxLifetime.Above(s.ebox.direct.Keys);
    EntryIsDelivered(s, s.saga.b.outbox, s.bbox, i);
    var d := Saga.OnReserve(r, m, draw, draw, true);
    step := Deliver(i, d, task, 0);
    assert Enabled(s, step);
    TransactionApplies(s, step, d, task, 0);
    var s' := Apply(s, step);
    q := AnsweredReserve(s, s', b, r, d);
    EventMoves(s, step);
    StepKeepsGood(s, step);
    RowIsInBox(s.ebox, s.saga.e.outbox, q);
    RowIsInBox(s'.ebox, s'.saga.e.outbox, q);
    NewRowIsDeliverable(s.ebox, EventMove(s, step), s'.ebox, q);
  }

  lemma SingleReserveRow(s: Saga.State, b: Id, r: Id, x: Id)
    requires Saga.Reachable(s) && b in s.b.bookings
    requires r in SagaTheorems.RowsAbout(s.b.outbox, ReserveSeats, b)
    requires x in SagaTheorems.RowsAbout(s.b.outbox, ReserveSeats, b)
    ensures x == r
  {
    SagaTheorems.ReachableCore(s);
    SagaTheorems.ReserveRows(s, b);
  }

  lemma ReplyWasNotThere(s: Saga.State, s': Saga.State, b: Id, r: Id, q: Id)
    requires Saga.Reachable(s) && IsPending(s, b) && SagaTheorems.WaitsFor(s, b, false, r)
    requires OutboxGrows(s.e.outbox, s'.e.outbox, s.b.inbox) && s'.b == s.b && SagaTheorems.WaitsFor(s', b, true, q)
    ensures q !in s.e.outbox
  {
    var reply, x := SagaTheorems.PendingHasAMessage(s, b);
    if q in s.e.outbox { assert SagaTheorems.WaitsFor(s, b, true, q); }
  }

  lemma AnsweredReserve(s: State, s': State, b: Id, r: Id, d: Saga.Step) returns (q: Id)
    requires Saga.Reachable(s.saga) && IsPending(s.saga, b) && SagaTheorems.WaitsFor(s.saga, b, false, r)
    requires d.OnReserve? && d.row == r && Saga.Enabled(s.saga, d) && s'.saga == Saga.Apply(s.saga, d)
    ensures IsPending(s'.saga, b) && SagaTheorems.WaitsFor(s'.saga, b, true, q) && q !in s.saga.e.outbox
  {
    SagaTheorems.ReachStep(s.saga, d);
    SagaTheorems.ReplyReportsTheSeats(s.saga, r, d.m, d.success, d.failure, d.seen);
    EventInboxGrows(s.saga, d);
    EventOutboxGrows(s.saga, d);
    var reply;
    reply, q := SagaTheorems.PendingHasAMessage(s'.saga, b);
    if !reply { SingleReserveRow(s.saga, b, r, q); }
    ReplyWasNotThere(s.saga, s'.saga, b, r, q);
  }

  lemma NewRowIsDeliverable(box: Outbox.Box, move: Option<Outbox.Step>, box': Outbox.Box, q: Id)
    requires BoxMoves(box, move, box') && q !in box.rows && q in box'.rows
    ensures OutboxLifetime.Deliverable(box', q)
  {
    if move.Some? && !move.value.Insert? { OutboxInvariant.StepKeepsKeys(box, move.value); }
  }

  lemma AliveReserveDecides(s: State, b: Id, r: Id) returns (steps: seq<Step>)
    requires Sound(s) && IsPending(s.saga, b) && SagaTheorems.WaitsFor(s.saga, b, false, r) && CanReachBroker(s, false, r)
    ensures DecidesBy(s, steps, b) && Usual(steps)
  {
    OutboxTheorems.ReachableInv(s.bbox);
    var publish := OutboxLifetime.CanPublish(s.bbox, r);
    BookingSideRuns(s, publish);
    var t := After(s, OnBookingSide(publish));
    RunKeepsSound(s, OnBookingSide(publish));
    var i :| 0 <= i < |t.bbox.log| && t.bbox.log[i].via.row == r;
    var step, q := LoggedReserveIsAnswered(t, b, r, i);
    RunThen(s, OnBookingSide(publish), step);
    StepKeepsSound(t, step);
    var rest := AliveReplyDecides(Apply(t, step), b, q);
    RunJoin(s, OnBookingSide(publish) + [step], rest);
    steps := OnBookingSide(publish) + [step] + rest;
  }

  // A PENDING booking can still be decided exactly when the one message it waits for is in its log, or its row is not
  // settled, or some worker or direct publisher has it in hand and has not sent it yet; and then the dispatchers as they are
  // suffice.
  lemma PendingCanBeDecidedExactly(s: State, b: Id)
    requires Reachable(s) && IsPending(s.saga, b)
    ensures MessageAlive(s, b) ==> exists steps :: DecidesBy(s, steps, b) && Usual(steps)
    ensures !MessageAlive(s, b) ==> forall steps :: !DecidesBy(s, steps, b)
  {
    ReachableSound(s);
    var reply, r := SagaTheorems.PendingHasAMessage(s.saga, b);
    if CanReachBroker(s, reply, r) {
      assert MessageAlive(s, b);
      if reply {
        var steps := AliveReplyDecides(s, b, r);
      } else {
        var steps := AliveReserveDecides(s, b, r);
      }
    } else {
      forall steps ensures !DecidesBy(s, steps, b) {
        if Run(s, steps) {
          if reply { DeadReply(s, steps, b, r); } else { DeadReserveMessage(s, steps, b, r); }
        }
      }
    }
  }

  /******* The seats of a cancelled booking *******/

  // Whatever a step does, the saga takes one step of its own or none.
  lemma SagaMoves(s: State, step: Step, b: Id)
    requires Good(s) && Enabled(s, step) && b in s.saga.b.bookings
    ensures SagaTheorems.MovesBooking(s.saga.b.bookings, Apply(s, step).saga.b.bookings, b)
    ensures SagaTheorems.Retained(s.saga, Apply(s, step).saga)
  {
    match step
    case Local(d) => SagaStepMoves(s, step, d, 0, 0, b);
    case Deliver(_, d, task, at) => SagaStepMoves(s, step, d, task, at, b);
    case _ => assert Apply(s, step).saga == s.saga;
  }

  lemma SagaStepMoves(s: State, step: Step, d: Saga.Step, task: Id, at: Time, b: Id)
    requires Good(s) && Enabled(s, step) && IsTransaction(step, d, task, at) && b in s.saga.b.bookings
    ensures SagaTheorems.MovesBooking(s.saga.b.bookings, Apply(s, step).saga.b.bookings, b)
    ensures SagaTheorems.Retained(s.saga, Apply(s, step).saga)
  {
    TransactionApplies(s, step, d, task, at);
    SagaTheorems.StepMovesBooking(s.saga, d, b);
    SagaTheorems.StepRetains(s.saga, d);
  }

  lemma {:induction false} CancelledStays(s: State, steps: seq<Step>, b: Id)
    requires Good(s) && Run(s, steps) && b in s.saga.b.bookings && s.saga.b.bookings[b].status == Cancelled
    ensures var s' := After(s, steps).saga;
            && b in s'.b.bookings && s'.b.bookings[b].status == Cancelled
            && SagaInvariant.SameTerms(s.saga.b.bookings[b], s'.b.bookings[b])
    decreases steps
  {
    if steps != [] {
      SagaMoves(s, steps[0], b);
      StepKeepsGood(s, steps[0]);
      CancelledStays(Apply(s, steps[0]), steps[1..], b);
    }
  }

  // A cancelled booking has one cancellation, and it counts in the ledger of its event until that is processed.
  lemma CancelledCounts(s: Saga.State, b: Id)
    requires Saga.Reachable(s) && b in s.b.bookings && s.b.bookings[b].status == Cancelled
    ensures exists r :: SagaTheorems.RowsAbout(s.b.outbox, BookingCancelled, b) == {r}
    ensures s.b.bookings[b].quantity > 0
    ensures SagaTheorems.OutstandingOf(s, s.b.bookings[b].eventId)(b)
         == if SagaTheorems.GaveBack(s, b) then 0 else s.b.bookings[b].quantity
  {
    SagaTheorems.ReachableCore(s);
    SagaTheorems.CancelRows(s, b);
    SagaTheorems.TakenFollowsTables(s, b);
    SagaTheorems.StatusOfTrail(s, b);
  }

  // The cancellation of b can still reach the broker.
  ghost predicate ReleaseAlive(s: State, b: Id) {
    exists r :: r in SagaTheorems.RowsAbout(s.saga.b.outbox, BookingCancelled, b) && CanReachBroker(s, false, r)
  }

  ghost predicate GivesBackBy(s: State, steps: seq<Step>, b: Id) {
    Run(s, steps) && SagaTheorems.GaveBack(After(s, steps).saga, b)
  }

  lemma DeadRelease(s: State, steps: seq<Step>, b: Id, r: Id)
    requires Sound(s) && Run(s, steps) && b in s.saga.b.bookings && s.saga.b.bookings[b].status == Cancelled
    requires r in SagaTheorems.RowsAbout(s.saga.b.outbox, BookingCancelled, b) && !CanReachBroker(s, false, r)
    ensures !SagaTheorems.GaveBack(After(s, steps).saga, b)
  {
    var s' := After(s, steps);
    RowIsInBox(s.bbox, s.saga.b.outbox, r);
    BookingRowStuckForever(s, steps, r, s.saga.b.outbox[r]);
    RunKeepsSound(s, steps);
    RowIsInBox(s'.bbox, s'.saga.b.outbox, r);
    CancelledStays(s, steps, b);
    CancelledCounts(s'.saga, b);
  }

  lemma DeadReleaseCounts(s: State, steps: seq<Step>, b: Id, r: Id)
    requires Sound(s) && Run(s, steps) && b in s.saga.b.bookings && s.saga.b.bookings[b].status == Cancelled
    requires r in SagaTheorems.RowsAbout(s.saga.b.outbox, BookingCancelled, b) && !CanReachBroker(s, false, r)
    ensures var k := s.saga.b.bookings[b];
            SagaTheorems.OutstandingOf(After(s, steps).saga, k.eventId)(b) == k.quantity > 0
  {
    DeadRelease(s, steps, b, r);
    CancelledStays(s, steps, b);
    RunKeepsSound(s, steps);
    CancelledCounts(After(s, steps).saga, b);
  }

  // The cancellation is in the log: its delivery gives the seats back.
  lemma LoggedReleaseGivesBack(s: State, b: Id, r: Id, i: nat) returns (step: Step)
    requires Sound(s) && r in SagaTheorems.RowsAbout(s.saga.b.outbox, BookingCancelled, b)
    requires i < |s.bbox.log| && s.bbox.log[i].via.row == r
    ensures Enabled(s, step) && SagaTheorems.GaveBack(Apply(s, step).saga, b) && step.Deliver?
  {
    var m := s.bbox.log[i].message;
    EntryIsDelivered(s, s.saga.b.outbox, s.bbox, i);
    var d := Saga.OnCancelled(r, m);
    step := Deliver(i, d, 0, 0);
    assert Enabled(s, step);
    TransactionApplies(s, step, d, 0, 0);
    SagaTheorems.ReleaseIsNeverRefused(s.saga, r, m);
    assert r in SagaTheorems.RowsAbout(Apply(s, step).saga.b.outbox, BookingCancelled, b);
  }

  lemma AliveReleaseGivesBack(s: State, b: Id, r: Id) returns (steps: seq<Step>)
    requires Sound(s) && r in SagaTheorems.RowsAbout(s.saga.b.outbox, BookingCancelled, b) && CanReachBroker(s, false, r)
    ensures GivesBackBy(s, steps, b) && Usual(steps)
  {
    OutboxTheorems.ReachableInv(s.bbox);
    var publish := OutboxLifetime.CanPublish(s.bbox, r);
    BookingSideRuns(s, publish);
    var t := After(s, OnBookingSide(publish));
    RunKeepsSound(s, OnBookingSide(publish));
    var i :| 0 <= i < |t.bbox.log| && t.bbox.log[i].via.row == r;
    var step := LoggedReleaseGivesBack(t, b, r, i);
    RunThen(s, OnBookingSide(publish), step);
    steps := OnBookingSide(publish) + [step];
  }

  // The seats of a cancelled booking can still come back exactly when its cancellation is in the log or can still be
  // published; otherwise they are missing from its event for ever.
  lemma SeatsCanComeBackExactly(s: State, b: Id)
    requires Reachable(s) && b in s.saga.b.bookings && s.saga.b.bookings[b].status == Cancelled
    ensures ReleaseAlive(s, b) ==> exists steps :: GivesBackBy(s, steps, b) && Usual(steps)
    ensures !ReleaseAlive(s, b) ==>
              forall steps :: Run(s, steps) ==>
                var k := s.saga.b.bookings[b];
                SagaTheorems.OutstandingOf(After(s, steps).saga, k.eventId)(b) == k.quantity > 0
  {
    ReachableSound(s);
    CancelledCounts(s.saga, b);
    var r :| SagaTheorems.RowsAbout(s.saga.b.outbox, BookingCancelled, b) == {r};
    if CanReachBroker(s, false, r) {
      var steps := AliveReleaseGivesBack(s, b, r);
    } else {
      forall steps | Run(s, steps)
        ensures var k := s.saga.b.bookings[b];
                SagaTheorems.OutstandingOf(After(s, steps).saga, k.eventId)(b) == k.quantity > 0
      {
        DeadReleaseCounts(s, steps, b, r);
      }
    }
  }
}
