/**
 The outbox statements and the dispatcher as the services run them: a table updated in place, a draining flag, a loop
 over the claimed batch. Each call is proved to be a run of the outbox protocol, whatever other processes do meanwhile.
 */
module Dispatcher {
  import opened Common
  import opened Messages
  import opened Outbox
  import opened OutboxInvariant
  import opened OutboxTheorems

  // Some of the candidates, in a sequence, and the rest.
  ghost predicate Picked(candidates: set<Id>, rest: set<Id>, order: seq<Id>) {
    rest <= candidates && ToSet(order) == candidates - rest && Distinct(order) && |ToSet(order)| == |order|
  }

  // The sequence goes by the time of creation, and nothing that is left is older.
  ghost predicate InOrder(rows: Table, rest: set<Id>, order: seq<Id>) {
    && ToSet(order) <= rows.Keys && rest <= rows.Keys
    && (forall i :: 0 <= i < |order| ==> order[i] in ToSet(order))
    && (forall i, j :: 0 <= i < j < |order| ==> rows[order[i]].createdAt <= rows[order[j]].createdAt)
    && (forall i, r :: 0 <= i < |order| && r in rest ==> rows[order[i]].createdAt <= rows[r].createdAt)
  }

  lemma NextPicked(candidates: set<Id>, rest: set<Id>, order: seq<Id>, r: Id)
    requires Picked(candidates, rest, order) && r in rest
    ensures Picked(candidates, rest - {r}, order + [r]) && ToSet(order + [r]) == ToSet(order) + {r}
  {
    var longer := order + [r];
    assert longer[|order|] == r && forall i :: 0 <= i < |order| ==> longer[i] == order[i] && order[i] in ToSet(order);
    assert ToSet(longer) == ToSet(order) + {r};
  }

  lemma NextInOrder(rows: Table, rest: set<Id>, order: seq<Id>, r: Id)
    requires InOrder(rows, rest, order) && r in rest && ToSet(order + [r]) == ToSet(order) + {r}
    requires forall x :: x in rest ==> rows[r].createdAt <= rows[x].createdAt
    ensures InOrder(rows, rest - {r}, order + [r])
  {
    var longer := order + [r];
    assert longer[|order|] == r && forall i :: 0 <= i < |order| ==> longer[i] == order[i];
  }

  // The oldest candidates in order.
  ghost predicate Front(rows: Table, candidates: set<Id>, order: seq<Id>) {
    Picked(candidates, candidates - ToSet(order), order) && InOrder(rows, candidates - ToSet(order), order)
  }

  lemma FrontGrows(rows: Table, candidates: set<Id>, order: seq<Id>, r: Id)
    requires Front(rows, candidates, order) && r in candidates - ToSet(order)
    requires forall x :: x in candidates - ToSet(order) ==> x in rows && rows[r].createdAt <= rows[x].createdAt
    ensures Front(rows, candidates, order + [r])
  {
    var rest := candidates - ToSet(order);
    NextPicked(candidates, rest, order, r);
    NextInOrder(rows, rest, order, r);
    assert candidates - ToSet(order + [r]) == rest - {r};
  }

  // The records a claim of these rows is about.
  function RecordsClaimed(rows: Table, order: seq<Id>, now: Time): seq<Record>
    requires ToSet(order) <= rows.Keys
  {
    seq(|order|, i requires 0 <= i < |order| =>
      assert order[i] in ToSet(order);
      Record(order[i], rows[order[i]].message, rows[order[i]].attempts + 1, now))
  }

  lemma ClaimedRecords(rows: Table, order: seq<Id>, worker: Id, now: Time)
    requires ToSet(order) <= rows.Keys
    ensures var claimed := ClaimRows(rows, ToSet(order), worker, now);
            && (forall r :: r in order ==> r in claimed && claimed[r].claimedAt.Some?)
            && RecordsOf(claimed, order) == RecordsClaimed(rows, order, now)
  {
    forall r | r in order ensures r in ToSet(order) {}
  }

  // booking_outbox_events or event_outbox_events.
  class OutboxTable {
    var rows: Table

    constructor ()
      ensures rows == map[]
    {
      rows := map[];
    }

    // ORDER BY created_at.
    method Oldest(candidates: set<Id>) returns (oldest: Id)
      requires candidates != {} && candidates <= rows.Keys
      ensures oldest in candidates
      ensures forall r :: r in candidates ==> rows[oldest].createdAt <= rows[r].createdAt
    {
      oldest :| oldest in candidates;
      var rest := candidates - {oldest};
      while rest != {}
        invariant oldest in candidates && rest <= candidates
        invariant forall r :: r in candidates - rest ==> rows[oldest].createdAt <= rows[r].createdAt
        decreases rest
      {
        var r :| r in rest;
        rest := rest - {r};
        if rows[r].createdAt < rows[oldest].createdAt { oldest := r; }
      }
    }

    // LIMIT: the first rows in that order.
    method OldestFirst(candidates: set<Id>, limit: nat) returns (order: seq<Id>)
      requires candidates <= rows.Keys
      ensures |order| <= limit && (|order| < limit ==> ToSet(order) == candidates)
      ensures Front(rows, candidates, order)
    {
      order := [];
      while |order| < limit && ToSet(order) != candidates
        invariant |order| <= limit && Front(rows, candidates, order)
        decreases limit - |order|
      {
        var r := Oldest(candidates - ToSet(order));
        FrontGrows(rows, candidates, order, r);
        order := order + [r];
      }
    }

    // The common table expression of the claim statement: the rows it selects and locks.
    method SelectClaimable(limit: nat, timeout: Time, maxAttempts: nat, now: Time, locked: set<Id>) returns (order: seq<Id>)
      ensures Distinct(order) && Selection(rows, locked, now, timeout, maxAttempts, limit, ToSet(order))
      ensures forall i, j :: 0 <= i < j < |order| ==> rows[order[i]].createdAt <= rows[order[j]].createdAt
    {
      var claimable := set r | r in rows && r !in locked && Claimable(rows[r], now, timeout, maxAttempts);
      order := OldestFirst(claimable, limit);
      assert forall r :: r in ToSet(order) ==> exists i :: 0 <= i < |order| && order[i] == r;
    }

    // The claim statement: select and lock, then update and return.
    method ClaimOutboxMessages(worker: Id, limit: nat, timeout: Time, maxAttempts: nat, now: Time, locked: set<Id>)
      returns (order: seq<Id>, batch: seq<Record>)
      modifies this
      ensures Distinct(order)
      ensures Selection(old(rows), locked, now, timeout, maxAttempts, limit, ToSet(order))
      ensures forall i, j :: 0 <= i < j < |order| ==> old(rows)[order[i]].createdAt <= old(rows)[order[j]].createdAt
      ensures rows == ClaimRows(old(rows), ToSet(order), worker, now)
      ensures batch == RecordsClaimed(old(rows), order, now)
    {
      order := SelectClaimable(limit, timeout, maxAttempts, now, locked);
      ClaimedRecords(rows, order, worker, now);
      rows := ClaimRows(rows, ToSet(order), worker, now);
      batch := RecordsOf(rows, order);
    }

    method MarkOutboxPublished(id: Id, worker: Option<Id>)
      modifies this
      ensures rows == MarkPublished(old(rows), id, worker)
    {
      if id in rows && (worker.None? || rows[id].claimedBy == worker) {
        rows := rows[id := rows[id].(status := Published, claimedAt := None, claimedBy := None)];
      }
    }

    method RecordOutboxFailure(id: Id, worker: Id, maxAttempts: nat, backoff: Time, now: Time)
      modifies this
      ensures rows == RecordFailure(old(rows), id, worker, maxAttempts, backoff, now)
    {
      if id in rows && rows[id].status == Processing && rows[id].claimedBy == Some(worker) {
        var row := rows[id];
        rows := rows[id := row.(status := if row.attempts >= maxAttempts then Failed else Pending,
                                nextAttemptAt := now + backoff, claimedAt := None, claimedBy := None)];
      }
    }
  }

  // Whose turn it is not when others act: a dispatcher's, or that of a handler with its own publish and mark.
  datatype Actor = TheWorker(w: Id) | TheTask(t: Id)

  // A handler shares its database with the dispatchers; other handlers' transactions are not among its rivals here.
  predicate BelongsTo(step: Step, actor: Actor) {
    match actor
    case TheWorker(w) => ActsFor(step, w)
    case TheTask(t) =>
      step.Insert? || (step.DirectPublish? && step.direct == t) || (step.DirectMark? && step.direct == t)
      || (step.DirectCrash? && step.direct == t)
  }

  ghost predicate Untouched(s: Box, s': Box, actor: Actor) {
    match actor
    case TheWorker(w) => WorkerOf(s', w) == WorkerOf(s, w)
    case TheTask(t) =>
      && (t in s.direct <==> t in s'.direct) && (t in s.direct ==> s'.direct[t] == s.direct[t])
      && Content(s'.rows) == Content(s.rows)
  }

  lemma StepKeepsMessages(s: Box, step: Step)
    requires Enabled(s, step) && !step.Insert?
    ensures Content(Apply(s, step).rows) == Content(s.rows)
  {
    StepKeepsKeys(s, step);
    ContentStays(s.rows, Apply(s, step).rows);
  }

  lemma OthersLeave(s: Box, step: Step, actor: Actor)
    requires Enabled(s, step) && !BelongsTo(step, actor)
    ensures Untouched(s, Apply(s, step), actor)
  {
    match actor
    case TheWorker(w) => OthersWait(s, step, w);
    case TheTask(t) => StepKeepsMessages(s, step);
  }

  // One database table, one broker, one clock, and every process that works on them.
  class World {
    const table: OutboxTable
    var workers: map<Id, Worker>
    var direct: map<Id, Direct>
    var log: seq<Entry>
    var now: Time
    var history: map<Id, seq<Attempt>>

    constructor (table: OutboxTable)
      requires table.rows == map[]
      ensures this.table == table && View() == EMPTY
    {
      this.table := table;
      workers, direct, log, now, history := map[], map[], [], 0, map[];
    }

    function View(): Box
      reads this, table
    {
      Box(table.rows, workers, direct, log, now, history)
    }

    // Other processes take their turns; steps that are not possible, or not theirs, are skipped.
    method TakeTurns(others: seq<Step>, actor: Actor) returns (ghost trace: seq<Step>)
      modifies this, table
      ensures Run(old(View()), trace) && View() == After(old(View()), trace)
      ensures Untouched(old(View()), View(), actor)
      ensures forall step :: step in trace ==> !BelongsTo(step, actor)
    {
      trace := [];
      for i := 0 to |others|
        invariant Run(old(View()), trace) && View() == After(old(View()), trace)
        invariant Untouched(old(View()), View(), actor)
        invariant forall step :: step in trace ==> !BelongsTo(step, actor)
      {
        if Enabled(View(), others[i]) && !BelongsTo(others[i], actor) {
          RunSnoc(old(View()), trace, others[i]);
          OthersLeave(View(), others[i], actor);
          trace := trace + [others[i]];
          var b := Apply(View(), others[i]);
          table.rows := b.rows;
          workers, direct, log, now, history := b.workers, b.direct, b.log, b.now, b.history;
        }
      }
    }
  }

  // How the awaits of one record turn out, and what others do before each of them.
  datatype Fate = Fate(ack: Ack, mark: Call, fail: Call,
                       beforePublish: seq<Step>, beforeMark: seq<Step>, beforeFail: seq<Step>)

  const SMOOTH: Fate := Fate(Acked, Done, Done, [], [], [])

  function FateOf(fates: seq<Fate>, i: nat): Fate {
    if i < |fates| then fates[i] else SMOOTH
  }

  // The step due at the first record of w, as its awaits turn out. A statement on a row that a claim statement has locked
  // ends in an error without effect.
  function Due(s: Box, w: Id, fate: Fate): Step
    requires WorkerOf(s, w).Draining? && WorkerOf(s, w).batch != []
  {
    var waits := Head(s, w).id in Locked(s);
    match WorkerOf(s, w).phase
    case Publishing => Publish(w, fate.ack)
    case Marking => Mark(w, if waits then Lost else fate.mark)
    case Failing => Fail(w, if waits then Lost else fate.fail)
  }

  // The step that w takes is the one due at the record it has come to, of `total` records.
  ghost predicate DueOf(s: Box, step: Step, w: Id, fates: seq<Fate>, total: nat) {
    && WorkerOf(s, w).Draining? && 0 < |WorkerOf(s, w).batch| <= total
    && step == Due(s, w, FateOf(fates, total - |WorkerOf(s, w).batch|))
  }

  // Every step that w takes in the run is the one due, by the fate of its record.
  ghost predicate AsFated(s: Box, trace: seq<Step>, w: Id, fates: seq<Fate>, total: nat)
    decreases trace
  {
    trace == []
    || (&& Enabled(s, trace[0])
        && (ActsFor(trace[0], w) ==> DueOf(s, trace[0], w, fates, total))
        && AsFated(Apply(s, trace[0]), trace[1..], w, fates, total))
  }

  lemma {:induction false} FatedJoin(s: Box, a: seq<Step>, b: seq<Step>, w: Id, fates: seq<Fate>, total: nat)
    requires Run(s, a) && AsFated(s, a, w, fates, total) && AsFated(After(s, a), b, w, fates, total)
    ensures AsFated(s, a + b, w, fates, total)
    decreases a
  {
    if a == [] {
      assert a + b == b;
    } else {
      assert (a + b)[1..] == a[1..] + b;
      FatedJoin(Apply(s, a[0]), a[1..], b, w, fates, total);
    }
  }

  lemma {:induction false} OthersAsFated(s: Box, trace: seq<Step>, w: Id, fates: seq<Fate>, total: nat)
    requires Run(s, trace) && forall step :: step in trace ==> !ActsFor(step, w)
    ensures AsFated(s, trace, w, fates, total)
    decreases trace
  {
    if trace != [] {
      assert trace[0] in trace && forall step :: step in trace[1..] ==> step in trace;
      OthersAsFated(Apply(s, trace[0]), trace[1..], w, fates, total);
    }
  }

  // A run of the protocol in which w hands exactly these records to the broker, and takes its steps as they are due.
  ghost predicate Works(s: Box, trace: seq<Step>, s': Box, w: Id, sent: seq<Record>, fates: seq<Fate>, total: nat) {
    Traces(s, trace, s', w, sent) && AsFated(s, trace, w, fates, total)
  }

  lemma WorksJoin(s: Box, a: seq<Step>, t: Box, b: seq<Step>, u: Box, w: Id, x: seq<Record>, y: seq<Record>,
                  fates: seq<Fate>, total: nat)
    requires Works(s, a, t, w, x, fates, total) && Works(t, b, u, w, y, fates, total)
    ensures Works(s, a + b, u, w, x + y, fates, total)
  {
    TracesJoin(s, a, t, b, u, w, x, y);
    FatedJoin(s, a, b, w, fates, total);
  }

  lemma WorkedOn(s: Box, a: seq<Step>, t: Box, b: seq<Step>, u: Box, w: Id, claimed: seq<Record>, i: nat, fates: seq<Fate>)
    requires i < |claimed| && Works(s, a, t, w, claimed[..i], fates, |claimed|)
    requires Works(t, b, u, w, [claimed[i]], fates, |claimed|)
    ensures Works(s, a + b, u, w, claimed[..i + 1], fates, |claimed|)
  {
    WorksJoin(s, a, t, b, u, w, claimed[..i], [claimed[i]], fates, |claimed|);
    assert claimed[..i + 1] == claimed[..i] + [claimed[i]];
  }

  lemma RestOf(claimed: seq<Record>, i: nat)
    requires i < |claimed|
    ensures claimed[i..] != [] && claimed[i..][0] == claimed[i] && claimed[i..][1..] == claimed[i + 1..]
    ensures i + |claimed[i..]| == |claimed|
  {
  }

  // Others take their turns, then w takes the step due.
  lemma WaitThenStep(s: Box, others: seq<Step>, t: Box, step: Step, w: Id, fates: seq<Fate>, total: nat)
    requires Run(s, others) && After(s, others) == t && forall x :: x in others ==> !ActsFor(x, w)
    requires Enabled(t, step) && DueOf(t, step, w, fates, total)
    ensures Works(s, others + [step], Apply(t, step), w, if step.Publish? && step.w == w then [Head(t, w)] else [],
                  fates, total)
  {
    OthersAsFated(s, others, w, fates, total);
    OthersSendNothing(s, others, w);
    TracesStep(t, step, w);
    TracesJoin(s, others, t, [step], Apply(t, step), w, [], if step.Publish? && step.w == w then [Head(t, w)] else []);
    assert [step][1..] == [];
    assert AsFated(t, [step], w, fates, total);
    FatedJoin(s, others, [step], w, fates, total);
  }

  // The records worker w hands to the broker in a run, in this order.
  ghost function Sent(s: Box, trace: seq<Step>, w: Id): seq<Record>
    requires Run(s, trace)
    decreases trace
  {
    if trace == [] then []
    else SentFirst(s, trace[0], w) + Sent(Apply(s, trace[0]), trace[1..], w)
  }

  function SentFirst(s: Box, step: Step, w: Id): seq<Record>
    requires Enabled(s, step)
  {
    if step.Publish? && step.w == w then [Head(s, w)] else []
  }

  lemma SentCons(s: Box, trace: seq<Step>, w: Id)
    requires Run(s, trace) && trace != []
    ensures Sent(s, trace, w) == SentFirst(s, trace[0], w) + Sent(Apply(s, trace[0]), trace[1..], w)
  {
  }

  lemma Associative<T>(x: seq<T>, y: seq<T>, z: seq<T>)
    ensures x + (y + z) == x + y + z
  {
  }

  lemma {:induction false} SentAdds(s: Box, a: seq<Step>, b: seq<Step>, w: Id)
    requires Run(s, a) && Run(After(s, a), b) && Run(s, a + b)
    ensures Sent(s, a + b, w) == Sent(s, a, w) + Sent(After(s, a), b, w)
    decreases a
  {
    if a == [] {
      assert a + b == b;
    } else {
      var t, rest := Apply(s, a[0]), a[1..];
      assert (a + b)[0] == a[0] && (a + b)[1..] == rest + b;
      SentCons(s, a + b, w);
      SentCons(s, a, w);
      SentAdds(t, rest, b, w);
      Associative(SentFirst(s, a[0], w), Sent(t, rest, w), Sent(After(t, rest), b, w));
    }
  }

  lemma {:induction false} OthersSendNothing(s: Box, trace: seq<Step>, w: Id)
    requires Run(s, trace) && forall step :: step in trace ==> !ActsFor(step, w)
    ensures Sent(s, trace, w) == []
    decreases trace
  {
    if trace != [] {
      assert trace[0] in trace && forall step :: step in trace[1..] ==> step in trace;
      OthersSendNothing(Apply(s, trace[0]), trace[1..], w);
    }
  }

  // A run of the protocol in which worker w hands exactly these records to the broker.
  ghost predicate Traces(s: Box, trace: seq<Step>, s': Box, w: Id, sent: seq<Record>) {
    Run(s, trace) && After(s, trace) == s' && Sent(s, trace, w) == sent
  }

  lemma TracesJoin(s: Box, a: seq<Step>, t: Box, b: seq<Step>, u: Box, w: Id, x: seq<Record>, y: seq<Record>)
    requires Traces(s, a, t, w, x) && Traces(t, b, u, w, y)
    ensures Traces(s, a + b, u, w, x + y)
  {
    RunJoin(s, a, b);
    SentAdds(s, a, b, w);
  }

  lemma TracesStep(s: Box, step: Step, w: Id)
    requires Enabled(s, step)
    ensures Traces(s, [step], Apply(s, step), w, if step.Publish? && step.w == w then [Head(s, w)] else [])
  {
    assert [step][1..] == [];
  }

  // The claim statement: it commits and returns its rows, commits without telling, or is rolled back.
  function ClaimSteps(w: Id, limit: nat, order: seq<Id>, claim: Call): seq<Step> {
    [Lock(w, limit, ToSet(order)), if claim.Lost? then Abort(w) else Commit(w, order, claim.Done?)]
  }

  function AfterClaim(s: Box, w: Id, order: seq<Id>, claim: Call): Box
    requires ToSet(order) <= s.rows.Keys
  {
    if claim.Lost? then s.(workers := s.workers[w := Idle])
    else
      s.(rows := ClaimRows(s.rows, ToSet(order), w, s.now),
         workers := s.workers[w := if claim.Done? then Drain(RecordsClaimed(s.rows, order, s.now)) else Idle],
         history := NoteClaims(s.history, ToSet(order), s.now))
  }

  lemma ClaimApplies(s: Box, w: Id, limit: nat, order: seq<Id>, claim: Call)
    requires WorkerOf(s, w).Idle? && Distinct(order)
    requires Selection(s.rows, Locked(s), s.now, CLAIM_TIMEOUT, MAX_ATTEMPTS, limit, ToSet(order))
    ensures var steps := ClaimSteps(w, limit, order, claim);
            && Enabled(s, steps[0]) && Enabled(Apply(s, steps[0]), steps[1])
            && Apply(Apply(s, steps[0]), steps[1]) == AfterClaim(s, w, order, claim)
  {
    if !claim.Lost? { ClaimedRecords(s.rows, order, w, s.now); }
  }

  lemma ClaimTraces(s: Box, w: Id, limit: nat, order: seq<Id>, claim: Call)
    requires WorkerOf(s, w).Idle? && Distinct(order)
    requires Selection(s.rows, Locked(s), s.now, CLAIM_TIMEOUT, MAX_ATTEMPTS, limit, ToSet(order))
    ensures Traces(s, ClaimSteps(w, limit, order, claim), AfterClaim(s, w, order, claim), w, [])
  {
    var steps := ClaimSteps(w, limit, order, claim);
    ClaimApplies(s, w, limit, order, claim);
    var t := Apply(s, steps[0]);
    TracesStep(s, steps[0], w);
    TracesStep(t, steps[1], w);
    TracesJoin(s, [steps[0]], t, [steps[1]], AfterClaim(s, w, order, claim), w, [], []);
    assert [steps[0]] + [steps[1]] == steps;
  }

  /******* What a call delivers *******/

  // Claim number n of row r is not on the log, and nobody has it in hand unsent.
  ghost predicate Gone(s: Box, r: Id, n: nat) {
    && r in s.rows && n <= s.rows[r].attempts
    && (forall i :: 0 <= i < |s.log| ==> s.log[i].via != Dispatcher(r, n))
    && (forall v, i :: Unsent(s, v, i) && s.workers[v].batch[i].id == r ==> s.workers[v].batch[i].attempts != n)
  }

  lemma GoneStaysUnsent(s: Box, step: Step, r: Id, n: nat, v: Id, i: int)
    requires Inv(s) && Enabled(s, step) && Gone(s, r, n)
    requires Unsent(Apply(s, step), v, i) && Apply(s, step).workers[v].batch[i].id == r
    ensures Apply(s, step).workers[v].batch[i].attempts != n
  {
    if step.Commit? && step.w == v {
      CommitRecord(s, v, step.order, step.returned, i);
    } else {
      UnsentOrigin(s, step, v, i);
    }
  }

  lemma GoneStaysUnlogged(s: Box, step: Step, r: Id, n: nat)
    requires Enabled(s, step) && Gone(s, r, n)
    ensures forall i :: 0 <= i < |Apply(s, step).log| ==> Apply(s, step).log[i].via != Dispatcher(r, n)
  {
  }

  lemma GoneStaysGone(s: Box, step: Step, r: Id, n: nat)
    requires Inv(s) && Enabled(s, step) && Gone(s, r, n)
    ensures Gone(Apply(s, step), r, n)
  {
    StepCarriesRows(s, step);
    GoneStaysUnlogged(s, step, r, n);
    forall v, i | Unsent(Apply(s, step), v, i) && Apply(s, step).workers[v].batch[i].id == r
      ensures Apply(s, step).workers[v].batch[i].attempts != n
    {
      GoneStaysUnsent(s, step, r, n, v, i);
    }
  }

  lemma {:induction false} GoneForGood(s: Box, steps: seq<Step>, r: Id, n: nat)
    requires Inv(s) && Run(s, steps) && Gone(s, r, n)
    ensures forall i :: 0 <= i < |After(s, steps).log| ==> After(s, steps).log[i].via != Dispatcher(r, n)
    decreases steps
  {
    if steps != [] {
      StepKeepsInv(s, steps[0]);
      GoneStaysGone(s, steps[0], r, n);
      GoneForGood(Apply(s, steps[0]), steps[1..], r, n);
    }
  }

  lemma {:induction false} LogGrows(s: Box, steps: seq<Step>)
    requires Run(s, steps)
    ensures s.log <= After(s, steps).log
    decreases steps
  {
    if steps != [] {
      StepMovesLog(s, steps[0]);
      LogGrows(Apply(s, steps[0]), steps[1..]);
    }
  }

  // The record's own publication is on the log.
  ghost predicate Arrived(log: seq<Entry>, c: Record) {
    exists i :: 0 <= i < |log| && log[i] == Entry(c.message, Dispatcher(c.id, c.attempts))
  }

  lemma RejectedIsGone(s: Box, w: Id)
    requires Inv(s) && AtHead(s, w, Publishing)
    ensures Gone(Apply(s, Publish(w, Rejected)), Head(s, w).id, Head(s, w).attempts)
  {
    var s', c := Apply(s, Publish(w, Rejected)), Head(s, w);
    assert Unsent(s, w, 0) && RecordOk(s, w, c);
    forall v, i | Unsent(s', v, i) && s'.workers[v].batch[i].id == c.id
      ensures s'.workers[v].batch[i].attempts != c.attempts
    {
      assert InBatch(s, v, i) && s.workers[v].batch[i] == s'.workers[v].batch[i];
      if s.workers[v].batch[i].attempts == c.attempts { assert SameClaim(s, w, 0, v, i); }
    }
  }

  lemma FirstArrives(s: Box, ack: Ack, rest: seq<Step>, end: Box, w: Id)
    requires Reachable(s) && AtHead(s, w, Publishing)
    requires Run(Apply(s, Publish(w, ack)), rest) && After(Apply(s, Publish(w, ack)), rest) == end
    ensures Arrived(end.log, Head(s, w)) <==> !ack.Rejected?
  {
    var s' := Apply(s, Publish(w, ack));
    ReachableInv(s);
    StepKeepsInv(s, Publish(w, ack));
    if ack.Rejected? {
      RejectedIsGone(s, w);
      GoneForGood(s', rest, Head(s, w).id, Head(s, w).attempts);
    } else {
      assert s'.log[|s.log|] == Entry(Head(s, w).message, Dispatcher(Head(s, w).id, Head(s, w).attempts));
      LogGrows(s', rest);
    }
  }

  // Where record j of w has got to after a step that does not send it.
  lemma RecordMovesUp(s: Box, step: Step, w: Id, j: nat, fates: seq<Fate>, total: nat) returns (j': nat)
    requires Enabled(s, step) && Unsent(s, w, j) && (ActsFor(step, w) ==> DueOf(s, step, w, fates, total) && 0 < j)
    ensures var s' := Apply(s, step);
            && Unsent(s', w, j') && s'.workers[w].batch[j'] == s.workers[w].batch[j]
            && |s'.workers[w].batch| - j' == |s.workers[w].batch| - j && j' <= j
  {
    if !ActsFor(step, w) {
      OthersWait(s, step, w);
      j' := j;
    } else {
      j' := if Apply(s, step).workers[w].batch == s.workers[w].batch then j else j - 1;
    }
  }

  ghost predicate FatedTo(s: Box, trace: seq<Step>, end: Box, w: Id, fates: seq<Fate>, total: nat) {
    Run(s, trace) && After(s, trace) == end && AsFated(s, trace, w, fates, total)
  }

  lemma FirstFated(s: Box, trace: seq<Step>, end: Box, w: Id, fates: seq<Fate>, total: nat) returns (next: Box)
    requires FatedTo(s, trace, end, w, fates, total) && WorkerOf(s, w) != WorkerOf(end, w)
    ensures trace != [] && Enabled(s, trace[0]) && next == Apply(s, trace[0])
    ensures ActsFor(trace[0], w) ==> DueOf(s, trace[0], w, fates, total)
    ensures FatedTo(next, trace[1..], end, w, fates, total) && Run(next, trace[1..]) && After(next, trace[1..]) == end
  {
    next := Apply(s, trace[0]);
  }

  lemma DueIsPublish(s: Box, step: Step, w: Id, fates: seq<Fate>, total: nat)
    requires Unsent(s, w, 0) && DueOf(s, step, w, fates, total)
    ensures AtHead(s, w, Publishing) && step == Publish(w, FateOf(fates, total - |s.workers[w].batch|).ack)
  {
  }

  lemma {:induction false} UnsentArrivesExactly(s: Box, trace: seq<Step>, end: Box, w: Id, j: nat, fates: seq<Fate>, total: nat)
    requires Reachable(s) && FatedTo(s, trace, end, w, fates, total) && WorkerOf(end, w).Idle?
    requires Unsent(s, w, j) && |s.workers[w].batch| <= total
    ensures Arrived(end.log, s.workers[w].batch[j])
       <==> !FateOf(fates, total - |s.workers[w].batch| + j).ack.Rejected?
    decreases trace
  {
    var next := FirstFated(s, trace, end, w, fates, total);
    var step := trace[0];
    if ActsFor(step, w) && j == 0 {
      DueIsPublish(s, step, w, fates, total);
      FirstArrives(s, step.ack, trace[1..], end, w);
    } else {
      var j' := RecordMovesUp(s, step, w, j, fates, total);
      ReachStep(s, step);
      UnsentArrivesExactly(next, trace[1..], end, w, j', fates, total);
    }
  }

  lemma DrainIsUnsent(s: Box, w: Id, claimed: seq<Record>, k: nat)
    requires WorkerOf(s, w) == Drain(claimed) && k < |claimed|
    ensures Unsent(s, w, k) && s.workers[w].batch == claimed
  {
  }

  // A call of the dispatcher brings a claimed record to the log exactly when the broker did not reject it, whatever becomes
  // of the bookkeeping and whatever others do.
  lemma ArrivesExactly(s: Box, trace: seq<Step>, s': Box, w: Id, claimed: seq<Record>, fates: seq<Fate>, k: nat)
    requires Reachable(s) && Works(s, trace, s', w, claimed, fates, |claimed|)
    requires WorkerOf(s, w) == Drain(claimed) && WorkerOf(s', w).Idle? && k < |claimed|
    ensures Arrived(s'.log, claimed[k]) <==> !FateOf(fates, k).ack.Rejected?
  {
    DrainIsUnsent(s, w, claimed, k);
    UnsentArrivesExactly(s, trace, s', w, k, fates, |claimed|);
  }

  /******* What an undisturbed call leaves *******/

  // What becomes of the row of a record that has come to this phase, if nobody else acts.
  function Outcome(row: Row, phase: Phase, fate: Fate): Status
    decreases if phase.Publishing? then 2 else if phase.Marking? then 1 else 0
  {
    match phase
    case Publishing => Outcome(row, if fate.ack.Acked? then Marking else Failing, fate)
    case Marking => if fate.mark.Lost? then Outcome(row, Failing, fate) else Published
    case Failing =>
      if fate.fail.Lost? || row.status != Processing then row.status
      else if row.attempts >= MAX_ATTEMPTS then Failed else Pending
  }

  function PhaseOf(s: Box, w: Id, j: nat): Phase
    requires WorkerOf(s, w).Draining?
  {
    if j == 0 then WorkerOf(s, w).phase else Publishing
  }

  // Record j of w is on a row that w owns until it has marked it.
  ghost predicate Owns(s: Box, w: Id, j: nat) {
    && InBatch(s, w, j)
    && var r := s.workers[w].batch[j].id;
       && r in s.rows && r !in Locked(s)
       && (s.rows[r].status == Processing ==> s.rows[r].claimedBy == Some(w))
       && (PhaseOf(s, w, j) != Failing ==> s.rows[r].status == Processing)
  }

  // No record of w is on row r.
  ghost predicate DoneWith(s: Box, w: Id, r: Id) {
    forall i :: InBatch(s, w, i) ==> s.workers[w].batch[i].id != r
  }

  ghost predicate Apart(s: Box, w: Id) {
    forall i, j :: InBatch(s, w, i) && InBatch(s, w, j) && s.workers[w].batch[i].id == s.workers[w].batch[j].id ==> i == j
  }

  lemma BatchIsApart(s: Box, w: Id)
    requires Reachable(s)
    ensures Apart(s, w)
  {
    ReachableInv(s);
  }

  // A step of w leaves the rows alone that it is not at.
  lemma OtherRowsRest(s: Box, step: Step, w: Id, fates: seq<Fate>, total: nat, r: Id)
    requires Enabled(s, step) && ActsFor(step, w) && DueOf(s, step, w, fates, total) && r in s.rows && Head(s, w).id != r
    ensures r in Apply(s, step).rows && Apply(s, step).rows[r] == s.rows[r]
    ensures DoneWith(s, w, r) ==> DoneWith(Apply(s, step), w, r)
    ensures Locked(Apply(s, step)) == Locked(s)
  {
    var s' := Apply(s, step);
    assert forall v :: v != w ==> (v in s'.workers <==> v in s.workers);
    assert forall v :: v != w && v in s.workers ==> s'.workers[v] == s.workers[v];
  }

  lemma {:induction false} DoneRowsRest(s: Box, trace: seq<Step>, end: Box, w: Id, fates: seq<Fate>, total: nat, r: Id)
    requires FatedTo(s, trace, end, w, fates, total) && (forall step :: step in trace ==> ActsFor(step, w))
    requires r in s.rows && DoneWith(s, w, r)
    ensures r in end.rows && end.rows[r] == s.rows[r]
    decreases trace
  {
    if trace != [] {
      assert trace[0] in trace && forall step :: step in trace[1..] ==> step in trace;
      assert InBatch(s, w, 0);
      OtherRowsRest(s, trace[0], w, fates, total, r);
      DoneRowsRest(Apply(s, trace[0]), trace[1..], end, w, fates, total, r);
    }
  }

  // A later record waits its turn.
  lemma LaterRecordWaits(s: Box, step: Step, w: Id, j: nat, fates: seq<Fate>, total: nat) returns (j': nat)
    requires Enabled(s, step) && ActsFor(step, w) && DueOf(s, step, w, fates, total) && Apart(s, w) && Owns(s, w, j) && 0 < j
    ensures var s', r := Apply(s, step), s.workers[w].batch[j].id;
            && Owns(s', w, j') && s'.workers[w].batch[j'].id == r && s'.rows[r] == s.rows[r]
            && |s'.workers[w].batch| - j' == |s.workers[w].batch| - j && PhaseOf(s', w, j') == Publishing
  {
    var r := s.workers[w].batch[j].id;
    assert InBatch(s, w, 0);
    OtherRowsRest(s, step, w, fates, total, r);
    j' := if Apply(s, step).workers[w].batch == s.workers[w].batch then j else j - 1;
  }

  // The first record takes its steps.
  lemma FirstRecordMoves(s: Box, step: Step, w: Id, fates: seq<Fate>, total: nat)
    requires Enabled(s, step) && ActsFor(step, w) && DueOf(s, step, w, fates, total) && Apart(s, w) && Owns(s, w, 0)
    ensures var s', r := Apply(s, step), Head(s, w).id;
            var fate := FateOf(fates, total - |s.workers[w].batch|);
            && r in s'.rows
            && if Owns(s', w, 0) && s'.workers[w].batch == s.workers[w].batch then
                 Outcome(s'.rows[r], s'.workers[w].phase, fate) == Outcome(s.rows[r], s.workers[w].phase, fate)
               else
                 DoneWith(s', w, r) && s'.rows[r].status == Outcome(s.rows[r], s.workers[w].phase, fate)
  {
    var s' := Apply(s, step);
    assert forall v :: v != w ==> (v in s'.workers <==> v in s.workers);
    assert forall v :: v != w && v in s.workers ==> s'.workers[v] == s.workers[v];
    assert Locked(s') == Locked(s);
    assert forall i :: InBatch(s, w, i) && 0 < i ==> s.workers[w].batch[i].id != Head(s, w).id;
  }

  lemma {:induction false} OutcomeIsExact(s: Box, trace: seq<Step>, end: Box, w: Id, j: nat, fates: seq<Fate>, total: nat)
    requires Reachable(s) && FatedTo(s, trace, end, w, fates, total) && WorkerOf(end, w).Idle?
    requires (forall step :: step in trace ==> ActsFor(step, w)) && Owns(s, w, j) && |s.workers[w].batch| <= total
    ensures var r := s.workers[w].batch[j].id;
            && r in end.rows
            && end.rows[r].status == Outcome(s.rows[r], PhaseOf(s, w, j), FateOf(fates, total - |s.workers[w].batch| + j))
    decreases trace
  {
    var next := FirstFated(s, trace, end, w, fates, total);
    var step, r := trace[0], s.workers[w].batch[j].id;
    assert step in trace && forall x :: x in trace[1..] ==> x in trace;
    BatchIsApart(s, w);
    ReachStep(s, step);
    if j > 0 {
      var j' := LaterRecordWaits(s, step, w, j, fates, total);
      OutcomeIsExact(next, trace[1..], end, w, j', fates, total);
    } else {
      FirstRecordMoves(s, step, w, fates, total);
      if Owns(next, w, 0) && next.workers[w].batch == s.workers[w].batch {
        OutcomeIsExact(next, trace[1..], end, w, 0, fates, total);
      } else {
        DoneRowsRest(next, trace[1..], end, w, fates, total, r);
      }
    }
  }

  // A call that nobody disturbs leaves each row it claimed as its awaits turned out: PUBLISHED if the send was acknowledged
  // and the mark took effect; otherwise, if the failure could be recorded, PENDING for another try, or FAILED after the
  // eighth; and otherwise PROCESSING until its claim times out. Every other row is as before.
  lemma UndisturbedCallIsExact(s: Box, w: Id, limit: nat, order: seq<Id>, trace: seq<Step>, s': Box, fates: seq<Fate>)
    requires Reachable(s) && WorkerOf(s, w).Idle? && Distinct(order)
    requires Selection(s.rows, Locked(s), s.now, CLAIM_TIMEOUT, MAX_ATTEMPTS, limit, ToSet(order))
    requires Works(AfterClaim(s, w, order, Done), trace, s', w, RecordsClaimed(s.rows, order, s.now), fates, |order|)
    requires WorkerOf(s', w).Idle? && forall step :: step in trace ==> ActsFor(step, w)
    ensures forall k :: 0 <= k < |order| ==>
              && order[k] in s.rows && order[k] in s'.rows
              && s'.rows[order[k]].status
                 == if FateOf(fates, k).ack.Acked? && !FateOf(fates, k).mark.Lost? then Published
                    else if FateOf(fates, k).fail.Lost? then Processing
                    else if s.rows[order[k]].attempts == 7 then Failed else Pending
    ensures forall r :: r in s.rows && r !in order ==> r in s'.rows && s'.rows[r] == s.rows[r]
  {
    var t := AfterClaim(s, w, order, Done);
    ClaimReaches(s, w, limit, order);
    assert FatedTo(t, trace, s', w, fates, |order|);
    forall k | 0 <= k < |order|
      ensures order[k] in s.rows && order[k] in s'.rows
      ensures s'.rows[order[k]].status
           == if FateOf(fates, k).ack.Acked? && !FateOf(fates, k).mark.Lost? then Published
              else if FateOf(fates, k).fail.Lost? then Processing
              else if s.rows[order[k]].attempts == 7 then Failed else Pending
    {
      ClaimedRowOutcome(s, w, limit, order, trace, s', fates, k);
    }
    forall r | r in s.rows && r !in order ensures r in s'.rows && s'.rows[r] == s.rows[r] {
      ClaimSparesOthers(s, w, order, r);
      DoneRowsRest(t, trace, s', w, fates, |order|, r);
    }
  }

  lemma ClaimedRowOutcome(s: Box, w: Id, limit: nat, order: seq<Id>, trace: seq<Step>, s': Box, fates: seq<Fate>, k: nat)
    requires WorkerOf(s, w).Idle? && k < |order|
    requires Selection(s.rows, Locked(s), s.now, CLAIM_TIMEOUT, MAX_ATTEMPTS, limit, ToSet(order))
    requires Reachable(AfterClaim(s, w, order, Done))
    requires FatedTo(AfterClaim(s, w, order, Done), trace, s', w, fates, |order|)
    requires WorkerOf(s', w).Idle? && forall step :: step in trace ==> ActsFor(step, w)
    ensures order[k] in s.rows && order[k] in s'.rows
    ensures s'.rows[order[k]].status
         == if FateOf(fates, k).ack.Acked? && !FateOf(fates, k).mark.Lost? then Published
            else if FateOf(fates, k).fail.Lost? then Processing
            else if s.rows[order[k]].attempts == 7 then Failed else Pending
  {
    ClaimOwns(s, w, limit, order, k);
    OutcomeIsExact(AfterClaim(s, w, order, Done), trace, s', w, k, fates, |order|);
  }

  lemma ClaimReaches(s: Box, w: Id, limit: nat, order: seq<Id>)
    requires Reachable(s) && WorkerOf(s, w).Idle? && Distinct(order)
    requires Selection(s.rows, Locked(s), s.now, CLAIM_TIMEOUT, MAX_ATTEMPTS, limit, ToSet(order))
    ensures Reachable(AfterClaim(s, w, order, Done))
  {
    var steps := ClaimSteps(w, limit, order, Done);
    ClaimApplies(s, w, limit, order, Done);
    ReachStep(s, steps[0]);
    ReachStep(Apply(s, steps[0]), steps[1]);
  }

  lemma ClaimOwns(s: Box, w: Id, limit: nat, order: seq<Id>, k: nat)
    requires WorkerOf(s, w).Idle? && k < |order|
    requires Selection(s.rows, Locked(s), s.now, CLAIM_TIMEOUT, MAX_ATTEMPTS, limit, ToSet(order))
    ensures var t := AfterClaim(s, w, order, Done);
            && Owns(t, w, k) && t.workers[w].batch[k].id == order[k] && PhaseOf(t, w, k) == Publishing
            && |t.workers[w].batch| == |order| && order[k] in s.rows && s.rows[order[k]].attempts < 8
            && t.rows[order[k]] == ClaimRow(s.rows[order[k]], w, s.now)
  {
    var t := AfterClaim(s, w, order, Done);
    assert order[k] in ToSet(order);
    assert forall v :: v != w ==> (v in t.workers <==> v in s.workers);
    assert forall v :: v != w && v in s.workers ==> t.workers[v] == s.workers[v];
    assert Locked(t) == Locked(s);
  }

  lemma ClaimSparesOthers(s: Box, w: Id, order: seq<Id>, r: Id)
    requires ToSet(order) <= s.rows.Keys && r in s.rows && r !in order
    ensures var t := AfterClaim(s, w, order, Done); r in t.rows && t.rows[r] == s.rows[r] && DoneWith(t, w, r)
  {
  }

  class OutboxDispatcher {
    const world: World
    const workerId: Id
    var draining: bool

    constructor (world: World, workerId: Id)
      ensures this.world == world && this.workerId == workerId && !draining
    {
      this.world, this.workerId, draining := world, workerId, false;
    }

    // The flag is up exactly while the protocol sees this worker busy.
    ghost predicate Valid()
      reads this, world, world.table
    {
      draining <==> !WorkerOf(world.View(), workerId).Idle?
    }

    // publishRecord: publish and mark; if either throws, record the failure, and ignore errors of that. The steps are those
    // due as the awaits of this record turn out.
    method PublishRecord(fates: seq<Fate>, i: nat, ghost pending: seq<Record>) returns (ghost trace: seq<Step>)
      requires pending != [] && WorkerOf(world.View(), workerId) == Draining(pending, Publishing)
      modifies world, world.table
      ensures Works(old(world.View()), trace, world.View(), workerId, [pending[0]], fates, i + |pending|)
      ensures WorkerOf(world.View(), workerId) == Drain(pending[1..])
    {
      ghost var s0 := world.View();
      trace := SendAndMark(fates, i, pending);
      if AtHead(world.View(), workerId, Failing) {
        ghost var s1 := world.View();
        ghost var rest := FailRecord(fates, i, pending);
        WorksJoin(s0, trace, s1, rest, world.View(), workerId, [pending[0]], [], fates, i + |pending|);
        trace := trace + rest;
      }
    }

    method SendAndMark(fates: seq<Fate>, i: nat, ghost pending: seq<Record>) returns (ghost trace: seq<Step>)
      requires pending != [] && WorkerOf(world.View(), workerId) == Draining(pending, Publishing)
      modifies world, world.table
      ensures Works(old(world.View()), trace, world.View(), workerId, [pending[0]], fates, i + |pending|)
      ensures WorkerOf(world.View(), workerId) == Drain(pending[1..])
           || WorkerOf(world.View(), workerId) == Draining(pending, Failing)
    {
      ghost var s0 := world.View();
      trace := SendRecord(fates, i, pending);
      if FateOf(fates, i).ack.Acked? {
        ghost var s1 := world.View();
        ghost var more := MarkRecord(fates, i, pending);
        WorksJoin(s0, trace, s1, more, world.View(), workerId, [pending[0]], [], fates, i + |pending|);
        trace := trace + more;
      }
    }

    method SendRecord(fates: seq<Fate>, i: nat, ghost pending: seq<Record>) returns (ghost trace: seq<Step>)
      requires pending != [] && WorkerOf(world.View(), workerId) == Draining(pending, Publishing)
      modifies world, world.table
      ensures Works(old(world.View()), trace, world.View(), workerId, [pending[0]], fates, i + |pending|)
      ensures WorkerOf(world.View(), workerId) == Draining(pending, if FateOf(fates, i).ack.Acked? then Marking else Failing)
    {
      ghost var s0 := world.View();
      var fate := FateOf(fates, i);
      trace := world.TakeTurns(fate.beforePublish, TheWorker(workerId));
      ghost var s1 := world.View();
      var record := WorkerOf(world.View(), workerId).batch[0];
      if !fate.ack.Rejected? {
        world.log := world.log + [Entry(record.message, Dispatcher(record.id, record.attempts))];
      }
      world.workers := Turn(world.View(), workerId, if fate.ack.Acked? then Marking else Failing);
      WaitThenStep(s0, trace, s1, Publish(workerId, fate.ack), workerId, fates, i + |pending|);
      trace := trace + [Publish(workerId, fate.ack)];
    }

    method MarkRecord(fates: seq<Fate>, i: nat, ghost pending: seq<Record>) returns (ghost trace: seq<Step>)
      requires pending != [] && WorkerOf(world.View(), workerId) == Draining(pending, Marking)
      modifies world, world.table
      ensures Works(old(world.View()), trace, world.View(), workerId, [], fates, i + |pending|)
      ensures WorkerOf(world.View(), workerId) == Drain(pending[1..])
           || WorkerOf(world.View(), workerId) == Draining(pending, Failing)
    {
      ghost var s0 := world.View();
      var fate := FateOf(fates, i);
      trace := world.TakeTurns(fate.beforeMark, TheWorker(workerId));
      ghost var s1 := world.View();
      var record := WorkerOf(world.View(), workerId).batch[0];
      var call := if record.id in Locked(world.View()) then Lost else fate.mark;
      var workers := if call.Done? then Advance(world.View(), workerId) else Turn(world.View(), workerId, Failing);
      if !call.Lost? {
        world.table.MarkOutboxPublished(record.id, Some(workerId));
      }
      world.workers := workers;
      WaitThenStep(s0, trace, s1, Mark(workerId, call), workerId, fates, i + |pending|);
      trace := trace + [Mark(workerId, call)];
    }

    method FailRecord(fates: seq<Fate>, i: nat, ghost pending: seq<Record>) returns (ghost trace: seq<Step>)
      requires pending != [] && WorkerOf(world.View(), workerId) == Draining(pending, Failing)
      modifies world, world.table
      ensures Works(old(world.View()), trace, world.View(), workerId, [], fates, i + |pending|)
      ensures WorkerOf(world.View(), workerId) == Drain(pending[1..])
    {
      ghost var s0 := world.View();
      var fate := FateOf(fates, i);
      trace := world.TakeTurns(fate.beforeFail, TheWorker(workerId));
      ghost var s1 := world.View();
      var record := WorkerOf(world.View(), workerId).batch[0];
      var call := if record.id in Locked(world.View()) then Lost else fate.fail;
      var workers := Advance(world.View(), workerId);
      if !call.Lost? {
        if FailureApplies(world.table.rows, record.id, workerId) {
          world.history := NoteFailure(world.history, record.id, world.now);
        }
        world.table.RecordOutboxFailure(record.id, workerId, MAX_ATTEMPTS, Backoff(record.attempts), world.now);
      }
      world.workers := workers;
      WaitThenStep(s0, trace, s1, Fail(workerId, call), workerId, fates, i + |pending|);
      trace := trace + [Fail(workerId, call)];
    }

    // The claim statement of this worker, run without interruption: it takes the oldest claimable rows up to the limit,
    // and hands over a record for each of them if it returns.
    method Claim(limit: nat, claim: Call) returns (pending: seq<Record>, ghost order: seq<Id>, ghost trace: seq<Step>)
      requires WorkerOf(world.View(), workerId).Idle?
      modifies world, world.table
      ensures var s := old(world.View());
              && Selection(s.rows, Locked(s), s.now, CLAIM_TIMEOUT, MAX_ATTEMPTS, limit, ToSet(order)) && Distinct(order)
              && (forall i, j :: 0 <= i < j < |order| ==> s.rows[order[i]].createdAt <= s.rows[order[j]].createdAt)
              && pending == (if claim.Done? then RecordsClaimed(s.rows, order, s.now) else [])
      ensures trace == ClaimSteps(workerId, limit, order, claim)
      ensures Traces(old(world.View()), trace, world.View(), workerId, [])
      ensures WorkerOf(world.View(), workerId) == Drain(pending)
    {
      var locked := Locked(world.View());
      var taken;
      if claim.Lost? {
        taken := world.table.SelectClaimable(limit, CLAIM_TIMEOUT, MAX_ATTEMPTS, world.now, locked);
        pending := [];
      } else {
        taken, pending :=
          world.table.ClaimOutboxMessages(workerId, limit, CLAIM_TIMEOUT, MAX_ATTEMPTS, world.now, locked);
        if !claim.Done? { pending := []; }
        world.history := NoteClaims(world.history, ToSet(taken), world.now);
      }
      ClaimTraces(old(world.View()), workerId, limit, taken, claim);
      world.workers := world.workers[workerId := Drain(pending)];
      order, trace := taken, ClaimSteps(workerId, limit, taken, claim);
    }

    // dispatchPending: a second call while the first is at work does nothing. Otherwise the call claims, and hands every
    // record its claim returned to the broker, once, in order, and nothing else; every step it takes after the claim is the
    // one due as its awaits turn out, whatever fails and whatever others do.
    method DispatchPending(limit: nat, claim: Call, fates: seq<Fate>)
      returns (claimed: seq<Record>, ghost order: seq<Id>, ghost trace: seq<Step>)
      requires Valid()
      modifies this, world, world.table
      ensures Valid()
      ensures Traces(old(world.View()), trace, world.View(), workerId, claimed)
      ensures old(draining) ==> draining && trace == [] && claimed == []
      ensures !old(draining) ==>
                var s := old(world.View());
                && !draining
                && Selection(s.rows, Locked(s), s.now, CLAIM_TIMEOUT, MAX_ATTEMPTS, limit, ToSet(order)) && Distinct(order)
                && (forall i, j :: 0 <= i < j < |order| ==> s.rows[order[i]].createdAt <= s.rows[order[j]].createdAt)
                && ClaimSteps(workerId, limit, order, claim) <= trace
                && claimed == (if claim.Done? then RecordsClaimed(s.rows, order, s.now) else [])
                && Run(s, trace[..2]) && AsFated(After(s, trace[..2]), trace[2..], workerId, fates, |claimed|)
    {
      claimed, order, trace := [], [], [];
      if draining { return; }
      draining := true;
      ghost var s0 := world.View();
      claimed, order, trace := Claim(limit, claim);
      ghost var s1 := world.View();
      ghost var more := PublishAll(claimed, fates);
      TracesJoin(s0, trace, s1, more, world.View(), workerId, [], claimed);
      assert (trace + more)[..2] == trace && (trace + more)[2..] == more;
      trace := trace + more;
      draining := false;
    }

    // The loop of dispatchPending over the claimed batch.
    method PublishAll(claimed: seq<Record>, fates: seq<Fate>) returns (ghost trace: seq<Step>)
      requires WorkerOf(world.View(), workerId) == Drain(claimed)
      modifies world, world.table
      ensures Works(old(world.View()), trace, world.View(), workerId, claimed, fates, |claimed|)
      ensures WorkerOf(world.View(), workerId).Idle?
    {
      ghost var s0 := world.View();
      trace := [];
      var i := 0;
      while i < |claimed|
        invariant 0 <= i <= |claimed|
        invariant Works(s0, trace, world.View(), workerId, claimed[..i], fates, |claimed|)
        invariant WorkerOf(world.View(), workerId) == Drain(claimed[i..])
      {
        ghost var s, pending := world.View(), claimed[i..];
        RestOf(claimed, i);
        ghost var more := PublishRecord(fates, i, pending);
        WorkedOn(s0, trace, s, more, world.View(), workerId, claimed, i, fates);
        trace, i := trace + more, i + 1;
      }
      assert claimed[..i] == claimed;
    }
  }
}
