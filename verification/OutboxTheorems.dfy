/** The promises of the outbox: truthful and final marks, bounded publication, paced retries, correct claims. */
module OutboxTheorems {
  import opened Common
  import opened Messages
  import opened Sums
  import opened Outbox
  import opened OutboxInvariant

  /******* Reachable states *******/

  lemma {:induction false} RunKeepsInv(s: Box, steps: seq<Step>)
    requires Inv(s) && Run(s, steps)
    ensures Inv(After(s, steps))
    decreases steps
  {
    if steps != [] {
      StepKeepsInv(s, steps[0]);
      RunKeepsInv(Apply(s, steps[0]), steps[1..]);
    }
  }

  lemma ReachableInv(s: Box)
    requires Reachable(s)
    ensures Inv(s)
  {
    var steps :| Run(EMPTY, steps) && After(EMPTY, steps) == s;
    InitInv();
    RunKeepsInv(EMPTY, steps);
  }

  /******* PUBLISHED is truthful and final *******/

  lemma PublishedIsTruthful(s: Box, r: Id)
    requires Reachable(s) && r in s.rows && s.rows[r].status == Published
    ensures exists i :: 0 <= i < |s.log| && s.log[i].via.row == r && s.log[i].message.SameContent(s.rows[r].message)
  {
    ReachableInv(s);
    var i :| 0 <= i < |s.log| && s.log[i].via.row == r;
    assert s.log[i].message.SameContent(s.rows[r].message);
  }

  lemma MoveKeepsPublished(s: Box, s': Box, r: Id)
    requires RowsOk(s) && HistoryOk(s) && LocksOk(s) && TableMoves(s, s') && r in s.rows && s.rows[r].status == Published
    ensures r in s'.rows && s'.rows[r].status == Published
  {
  }

  lemma StepKeepsPublished(s: Box, step: Step, r: Id)
    requires Inv(s) && Enabled(s, step) && r in s.rows && s.rows[r].status == Published
    ensures r in Apply(s, step).rows && Apply(s, step).rows[r].status == Published && s.log <= Apply(s, step).log
  {
    StepMoves(s, step);
    StepMovesLog(s, step);
    MoveKeepsPublished(s, Apply(s, step), r);
  }

  // Stale workers, reclaims, recorded failures and unowned marks included.
  lemma {:induction false} PublishedIsFinal(s: Box, steps: seq<Step>, r: Id)
    requires Inv(s) && Run(s, steps) && r in s.rows && s.rows[r].status == Published
    ensures r in After(s, steps).rows && After(s, steps).rows[r].status == Published
    ensures s.log <= After(s, steps).log
    decreases steps
  {
    if steps != [] {
      StepKeepsPublished(s, steps[0], r);
      StepKeepsInv(s, steps[0]);
      PublishedIsFinal(Apply(s, steps[0]), steps[1..], r);
    }
  }

  // All published copies of one message agree on everything but the moment they were built.
  lemma CopiesAgree(s: Box, i: int, j: int)
    requires Reachable(s) && 0 <= i < |s.log| && 0 <= j < |s.log|
    requires s.log[i].message.Key() == s.log[j].message.Key()
    ensures s.log[i].message.SameContent(s.log[j].message) && s.log[i].via.row == s.log[j].via.row
  {
    ReachableInv(s);
  }

  /******* At most one publication per attempt *******/

  ghost function SentBy(log: seq<Entry>, r: Id): set<int> {
    set i | 0 <= i < |log| && log[i].via.Dispatcher? && log[i].via.row == r
  }

  // Positions with pairwise different numbers in 1..bound are at most `bound` many.
  lemma {:induction false} Pigeonhole(positions: set<int>, number: int -> int, bound: nat)
    requires forall p :: p in positions ==> 1 <= number(p) <= bound
    requires forall p, q :: p in positions && q in positions && number(p) == number(q) ==> p == q
    ensures |positions| <= bound
    decreases bound
  {
    if bound == 0 {
      assert forall p :: p !in positions;
      assert positions == {};
    } else if p: int :| p in positions && number(p) == bound {
      Pigeonhole(positions - {p}, number, bound - 1);
    } else {
      Pigeonhole(positions, number, bound - 1);
    }
  }

  lemma PublishedAtMostAttempts(s: Box, r: Id)
    requires Reachable(s) && r in s.rows
    ensures |SentBy(s.log, r)| <= s.rows[r].attempts <= MAX_ATTEMPTS
  {
    ReachableInv(s);
    var number := (i: int) => if 0 <= i < |s.log| && s.log[i].via.Dispatcher? then s.log[i].via.attempt else 0;
    forall p, q | p in SentBy(s.log, r) && q in SentBy(s.log, r) && number(p) == number(q) ensures p == q {
      assert s.log[p].via == s.log[q].via;
    }
    Pigeonhole(SentBy(s.log, r), number, s.rows[r].attempts);
  }

  /******* Retry timing *******/

  function MinGap(k: nat): Time
    requires 1 <= k
  {
    Min(Pow2(k - 1), 60) * SECOND
  }

  lemma PowersOfTwo()
    ensures Pow2(0) == 1 && Pow2(1) == 2 && Pow2(2) == 4 && Pow2(3) == 8
    ensures Pow2(4) == 16 && Pow2(5) == 32 && Pow2(6) == 64 && Pow2(7) == 128
  {
  }

  // With eight attempts the delay doubles from one second to 128; the cap of 300 seconds is never reached.
  lemma BackoffDoubles(k: nat)
    requires 1 <= k <= MAX_ATTEMPTS
    ensures SECOND <= Backoff(k) <= 128 * SECOND
    ensures k < MAX_ATTEMPTS ==> Backoff(k + 1) == 2 * Backoff(k)
  {
    PowersOfTwo();
  }

  // The gap after the k-th claim of a row.
  lemma RetryGap(s: Box, r: Id, k: nat)
    requires Reachable(s) && r in s.rows && r in s.history && 1 <= k < |s.history[r]|
    ensures s.history[r][k].at - s.history[r][k - 1].at >= MinGap(k)
    ensures s.history[r][k - 1].failedAt.Some? ==> s.history[r][k].at - s.history[r][k - 1].at >= Backoff(k)
    ensures s.history[r][k - 1].failedAt.None? ==> s.history[r][k].at - s.history[r][k - 1].at > CLAIM_TIMEOUT
  {
    ReachableInv(s);
    assert Traced(s.rows[r], s.history[r], s.now);
    assert Spaced(s.history[r][k - 1], k, s.history[r][k].at);
  }

  // The current claim and failure times are the last entries of the history.
  lemma HistoryIsCurrent(s: Box, r: Id)
    requires Reachable(s) && r in s.rows
    ensures r in s.history && |s.history[r]| == s.rows[r].attempts
    ensures s.rows[r].status == Processing ==>
              s.history[r] != [] && s.rows[r].claimedAt == Some(s.history[r][|s.history[r]| - 1].at)
  {
    ReachableInv(s);
    assert Traced(s.rows[r], s.history[r], s.now);
  }

  lemma EighthClaimIsLate(s: Box, r: Id)
    requires Reachable(s) && r in s.rows && s.rows[r].attempts == 8
    ensures r in s.history && |s.history[r]| == 8
    ensures s.history[r][7].at - s.history[r][0].at >= 123 * SECOND
  {
    HistoryIsCurrent(s, r);
    PowersOfTwo();
    RetryGap(s, r, 1); RetryGap(s, r, 2); RetryGap(s, r, 3); RetryGap(s, r, 4);
    RetryGap(s, r, 5); RetryGap(s, r, 6); RetryGap(s, r, 7);
  }

  ghost predicate AllFailed(h: seq<Attempt>) {
    forall k :: 0 <= k < |h| ==> h[k].failedAt.Some?
  }

  // A row whose every publish failed and was recorded: FAILED after exactly eight claims, and not sooner than 127 s.
  lemma FailedAfterEightClaims(s: Box, r: Id)
    requires Reachable(s) && r in s.rows && s.rows[r].status != Published
    requires r in s.history && AllFailed(s.history[r])
    ensures s.rows[r].status == Failed <==> s.rows[r].attempts == 8
    ensures s.rows[r].status == Pending <==> s.rows[r].attempts < 8
    ensures s.rows[r].status == Failed ==>
              && |s.history[r]| == 8
              && s.history[r][7].at - s.history[r][0].at >= 127 * SECOND
              && s.history[r][7].failedAt.value >= s.history[r][7].at
  {
    ReachableInv(s);
    assert RowOk(s.rows[r]) && Traced(s.rows[r], s.history[r], s.now);
    if s.rows[r].attempts == 8 {
      PowersOfTwo();
      RetryGap(s, r, 1); RetryGap(s, r, 2); RetryGap(s, r, 3); RetryGap(s, r, 4);
      RetryGap(s, r, 5); RetryGap(s, r, 6); RetryGap(s, r, 7);
    }
  }

  /******* Bound and termination *******/

  // How many more times dispatchers can change a row: two per attempt left, one to settle a claim.
  ghost function RowWork(row: Row): int {
    if row.status == Published || row.status == Failed then 0
    else 2 * (MAX_ATTEMPTS - row.attempts) + (if row.status == Processing then 1 else 0)
  }

  ghost function WorkOf(rows: Table): Id -> int {
    r => if r in rows then RowWork(rows[r]) else 0
  }

  ghost function Work(s: Box): int {
    Sum(s.rows.Keys, WorkOf(s.rows))
  }

  ghost function OneFor(t: set<Id>): Id -> int {
    r => if r in t then 1 else 0
  }

  predicate ByDispatcher(step: Step) {
    step.Commit? || step.Mark? || step.Fail?
  }

  // Rows a step changes.
  ghost function Changed(s: Box, s': Box): set<Id> {
    set r | r in s.rows && r in s'.rows && s'.rows[r] != s.rows[r]
  }

  lemma MoveSpendsWork(s: Box, s': Box, r: Id)
    requires RowsOk(s) && HistoryOk(s) && LocksOk(s) && TableMoves(s, s') && r in s.rows
    ensures 0 <= RowWork(s'.rows[r]) <= RowWork(s.rows[r])
    ensures s'.rows[r] != s.rows[r] && s.rows[r].status in {Pending, Processing} ==> RowWork(s'.rows[r]) < RowWork(s.rows[r])
  {
  }

  // Rows that a dispatcher changes: every claim, mark or recorded failure that takes effect.
  lemma DispatcherChangesLiveRows(s: Box, step: Step, r: Id)
    requires Inv(s) && Enabled(s, step) && ByDispatcher(step)
    requires r in Changed(s, Apply(s, step))
    ensures s.rows[r].status in {Pending, Processing}
  {
    if step.Commit? {
      assert Holds(s, step.w, r);
    } else {
      assert InBatch(s, step.w, 0);
    }
  }

  // Each dispatcher step pays one unit of work for each row it changes.
  lemma DispatcherSpendsWork(s: Box, step: Step)
    requires Inv(s) && Enabled(s, step) && ByDispatcher(step)
    ensures Work(Apply(s, step)) + |Changed(s, Apply(s, step))| <= Work(s)
  {
    var s' := Apply(s, step);
    var changed := Changed(s, s');
    StepMoves(s, step);
    StepKeepsKeys(s, step);
    forall r | r in s.rows ensures WorkOf(s'.rows)(r) + OneFor(changed)(r) <= WorkOf(s.rows)(r) {
      MoveSpendsWork(s, s', r);
      if r in changed { DispatcherChangesLiveRows(s, step, r); }
    }
    SumSplitInto(s.rows.Keys, WorkOf(s'.rows), OneFor(changed), WorkOf(s.rows));
    SumOfMarks(s.rows.Keys, changed);
  }

  lemma {:induction false} SumSplitInto(s: set<Id>, f: Id -> int, g: Id -> int, h: Id -> int)
    requires forall x :: x in s ==> f(x) + g(x) <= h(x)
    ensures Sum(s, f) + Sum(s, g) <= Sum(s, h)
    decreases s
  {
    if s != {} {
      var x: Id :| x in s;
      SumSplit(s, f, x);
      SumSplit(s, g, x);
      SumSplit(s, h, x);
      SumSplitInto(s - {x}, f, g, h);
    }
  }

  lemma {:induction false} SumOfMarks(s: set<Id>, t: set<Id>)
    requires t <= s
    ensures Sum(s, OneFor(t)) == |t|
    decreases t
  {
    if t == {} {
      SumConstant(s, OneFor(t), 0);
    } else {
      var x: Id :| x in t;
      SumOfMarks(s, t - {x});
      SumUpdate(s, OneFor(t - {x}), OneFor(t), x);
    }
  }

  lemma InsertAddsWork(s: Box, step: Step)
    requires Inv(s) && Enabled(s, step) && step.Insert?
    ensures Work(Apply(s, step)) == Work(s) + 16
  {
    var rows := s.rows[step.id := NewRow(step.message, s.now)];
    assert rows.Keys == s.rows.Keys + {step.id};
    SumInsert(s.rows.Keys, WorkOf(s.rows), WorkOf(rows), step.id);
  }

  // Other steps leave the work as it is, or lower it.
  lemma OtherStepsAddNoWork(s: Box, step: Step)
    requires Inv(s) && Enabled(s, step) && !step.Insert?
    ensures Work(Apply(s, step)) <= Work(s)
  {
    var s' := Apply(s, step);
    StepMoves(s, step);
    StepKeepsKeys(s, step);
    forall r | r in s.rows ensures WorkOf(s'.rows)(r) <= WorkOf(s.rows)(r) {
      MoveSpendsWork(s, s', r);
    }
    SumBetween(s.rows.Keys, WorkOf(s'.rows), WorkOf(s.rows));
  }

  // Rows changed by dispatcher steps, counted over a run.
  ghost function StepEffort(s: Box, step: Step): int
    requires Enabled(s, step)
  {
    if ByDispatcher(step) then |Changed(s, Apply(s, step))| else 0
  }

  ghost function Effort(s: Box, steps: seq<Step>): int
    requires Run(s, steps)
    decreases steps
  {
    if steps == [] then 0 else StepEffort(s, steps[0]) + Effort(Apply(s, steps[0]), steps[1..])
  }

  ghost function Inserted(steps: seq<Step>): nat {
    if steps == [] then 0 else (if steps[0].Insert? then 1 else 0) + Inserted(steps[1..])
  }

  lemma StepEffortIsPaid(s: Box, step: Step)
    requires Inv(s) && Enabled(s, step)
    ensures StepEffort(s, step) + Work(Apply(s, step)) <= Work(s) + (if step.Insert? then 16 else 0)
  {
    if step.Insert? {
      InsertAddsWork(s, step);
    } else if ByDispatcher(step) {
      DispatcherSpendsWork(s, step);
    } else {
      OtherStepsAddNoWork(s, step);
    }
  }

  lemma {:induction false} EffortIsPaid(s: Box, steps: seq<Step>)
    requires Inv(s) && Run(s, steps)
    ensures Effort(s, steps) + Work(After(s, steps)) <= Work(s) + 16 * Inserted(steps)
    decreases steps
  {
    if steps != [] {
      var s', rest := Apply(s, steps[0]), steps[1..];
      StepEffortIsPaid(s, steps[0]);
      StepKeepsInv(s, steps[0]);
      EffortIsPaid(s', rest);
      assert Effort(s, steps) == StepEffort(s, steps[0]) + Effort(s', rest);
      assert After(s, steps) == After(s', rest);
    }
  }

  lemma WorkIsNotNegative(s: Box)
    requires RowsOk(s)
    ensures 0 <= Work(s)
  {
    SumConstant(s.rows.Keys, (r: Id) => 0, 0);
    SumBetween(s.rows.Keys, (r: Id) => 0, WorkOf(s.rows));
  }

  // Termination: over any run, dispatchers change rows at most sixteen times per row ever inserted.
  lemma DispatchersTerminate(steps: seq<Step>)
    requires Run(EMPTY, steps)
    ensures Effort(EMPTY, steps) <= 16 * Inserted(steps)
  {
    InitInv();
    EffortIsPaid(EMPTY, steps);
    RunKeepsInv(EMPTY, steps);
    WorkIsNotNegative(After(EMPTY, steps));
  }

  ghost predicate Settled(row: Row) {
    || row.status == Published
    || (row.status == Failed && row.attempts == 8)
    || (row.status == Processing && row.attempts == 8)
  }

  // When no row can be claimed now or after any wait, every row is settled, or stuck at its last attempt.
  lemma Quiescence(s: Box, r: Id)
    requires Reachable(s) && r in s.rows
    ensures (forall t :: s.now <= t ==> !Claimable(s.rows[r], t, CLAIM_TIMEOUT, MAX_ATTEMPTS)) <==> Settled(s.rows[r])
  {
    ReachableInv(s);
    var row := s.rows[r];
    assert RowOk(row);
    if row.status == Pending {
      assert Claimable(row, Max(s.now, row.nextAttemptAt), CLAIM_TIMEOUT, MAX_ATTEMPTS);
    } else if row.status == Processing && row.attempts < 8 {
      assert Claimable(row, Max(s.now, row.claimedAt.value + CLAIM_TIMEOUT + 1), CLAIM_TIMEOUT, MAX_ATTEMPTS);
    }
  }

  /******* Claims *******/

  // Claim statements that overlap in time lock different rows.
  lemma ConcurrentClaimsAreDisjoint(s: Box, w: Id, v: Id)
    requires Reachable(s) && WorkerOf(s, w).Claiming? && WorkerOf(s, v).Claiming? && w != v
    ensures WorkerOf(s, w).ids !! WorkerOf(s, v).ids
  {
    ReachableInv(s);
    forall r | r in WorkerOf(s, w).ids && r in WorkerOf(s, v).ids ensures false {
      assert Holds(s, w, r) && Holds(s, v, r);
    }
  }

  lemma {:induction false} AttemptsAreOrdered(h: seq<Attempt>, j: nat, k: nat)
    requires Paced(h) && j < k < |h|
    ensures h[j].at <= h[k].at
    ensures h[j].failedAt.None? ==> h[k].at - h[j].at > CLAIM_TIMEOUT
    decreases k
  {
    assert Spaced(h[k - 1], k, h[k].at);
    if j < k - 1 { AttemptsAreOrdered(h, j, k - 1); }
  }

  // Two dispatchers hold a row at once only when their claims lie more than the timeout apart.
  lemma ClaimsFarApart(h: seq<Attempt>, c: Record, d: Record, now: Time)
    requires Paced(h) && Past(h, now) && c.attempts != d.attempts
    requires 1 <= c.attempts <= |h| && h[c.attempts - 1] == Attempt(c.claimedAt, None)
    requires 1 <= d.attempts <= |h| && h[d.attempts - 1] == Attempt(d.claimedAt, None)
    ensures Max(c.claimedAt, d.claimedAt) - Min(c.claimedAt, d.claimedAt) > CLAIM_TIMEOUT
    ensures Max(c.claimedAt, d.claimedAt) <= now
  {
    if c.attempts < d.attempts {
      AttemptsAreOrdered(h, c.attempts - 1, d.attempts - 1);
    } else {
      AttemptsAreOrdered(h, d.attempts - 1, c.attempts - 1);
    }
  }

  lemma RecordsOfARow(s: Box, w: Id, i: int, v: Id, j: int)
    requires RowsOk(s) && HistoryOk(s) && BatchesOk(s) && TracesOk(s) && w != v && InBatch(s, w, i) && InBatch(s, v, j)
    requires s.workers[w].batch[i].id == s.workers[v].batch[j].id
    ensures var c, d := s.workers[w].batch[i], s.workers[v].batch[j];
            && c.attempts != d.attempts && RecordTraced(s, c) && RecordTraced(s, d)
            && Paced(s.history[c.id]) && Past(s.history[c.id], s.now)
  {
    var c, d := s.workers[w].batch[i], s.workers[v].batch[j];
    assert !SameClaim(s, w, i, v, j);
    assert RecordOk(s, w, c) && Traced(s.rows[c.id], s.history[c.id], s.now);
  }

  lemma ReachableRecords(s: Box, w: Id, i: int, v: Id, j: int)
    requires Reachable(s) && w != v && InBatch(s, w, i) && InBatch(s, v, j)
    requires s.workers[w].batch[i].id == s.workers[v].batch[j].id
    ensures var c, d := s.workers[w].batch[i], s.workers[v].batch[j];
            && c.attempts != d.attempts && RecordTraced(s, c) && RecordTraced(s, d)
            && Paced(s.history[c.id]) && Past(s.history[c.id], s.now)
  {
    ReachableInv(s);
    RecordsOfARow(s, w, i, v, j);
  }

  lemma SharedRowIsStale(s: Box, w: Id, i: int, v: Id, j: int)
    requires Reachable(s) && w != v && InBatch(s, w, i) && InBatch(s, v, j)
    requires s.workers[w].batch[i].id == s.workers[v].batch[j].id
    ensures var c, d := s.workers[w].batch[i], s.workers[v].batch[j];
            && Max(c.claimedAt, d.claimedAt) - Min(c.claimedAt, d.claimedAt) > CLAIM_TIMEOUT
            && Max(c.claimedAt, d.claimedAt) <= s.now
  {
    var c, d := s.workers[w].batch[i], s.workers[v].batch[j];
    ReachableRecords(s, w, i, v, j);
    ClaimsFarApart(s.history[c.id], c, d, s.now);
  }

  // Every batched record is at most sixty seconds old.
  ghost predicate Prompt(s: Box) {
    forall w, i :: InBatch(s, w, i) ==> s.now - s.workers[w].batch[i].claimedAt <= CLAIM_TIMEOUT
  }

  // So with prompt workers a row is in one batch at most.
  lemma PromptWorkersDoNotShare(s: Box, w: Id, i: int, v: Id, j: int)
    requires Reachable(s) && Prompt(s) && InBatch(s, w, i) && InBatch(s, v, j)
    requires s.workers[w].batch[i].id == s.workers[v].batch[j].id
    ensures w == v && i == j
  {
    ReachableInv(s);
    if w != v { SharedRowIsStale(s, w, i, v, j); }
  }

  lemma {:induction false} RunSnoc(s: Box, steps: seq<Step>, step: Step)
    requires Run(s, steps) && Enabled(After(s, steps), step)
    ensures Run(s, steps + [step]) && After(s, steps + [step]) == Apply(After(s, steps), step)
    decreases steps
  {
    if steps == [] {
      assert [step][1..] == [];
    } else {
      assert (steps + [step])[1..] == steps[1..] + [step];
      RunSnoc(Apply(s, steps[0]), steps[1..], step);
    }
  }

  lemma {:induction false} RunJoin(s: Box, a: seq<Step>, b: seq<Step>)
    requires Run(s, a) && Run(After(s, a), b)
    ensures Run(s, a + b) && After(s, a + b) == After(After(s, a), b)
    decreases a
  {
    if a == [] {
      assert a + b == b;
    } else {
      assert (a + b)[1..] == a[1..] + b;
      RunJoin(Apply(s, a[0]), a[1..], b);
    }
  }

  lemma ReachStep(s: Box, step: Step)
    requires Reachable(s) && Enabled(s, step)
    ensures Reachable(Apply(s, step))
  {
    var steps :| Run(EMPTY, steps) && After(EMPTY, steps) == s;
    RunSnoc(EMPTY, steps, step);
  }

  lemma OnlyRowIsSelected(s: Box, m: Message)
    requires s.rows.Keys == {1} && Locked(s) == {} && Claimable(s.rows[1], s.now, CLAIM_TIMEOUT, MAX_ATTEMPTS)
    ensures Selection(s.rows, Locked(s), s.now, CLAIM_TIMEOUT, MAX_ATTEMPTS, 25, {1})
  {
  }

  lemma OnlyRowIsClaimed(s: Box, w: Id)
    requires s.rows.Keys == {1} && WorkerOf(s, w) == Claiming(s.now, {1})
    ensures Enabled(s, Commit(w, [1], true))
    ensures var s' := Apply(s, Commit(w, [1], true));
            && s'.rows == s.rows[1 := ClaimRow(s.rows[1], w, s.now)] && s'.now == s.now && s'.log == s.log
            && s'.workers == s.workers[w := Draining([Record(1, s.rows[1].message, s.rows[1].attempts + 1, s.now)], Publishing)]
  {
    assert ToSet([1]) == {1};
    var s' := Apply(s, Commit(w, [1], true));
    assert s'.workers[w].batch == [Record(1, s.rows[1].message, s.rows[1].attempts + 1, s.now)];
  }

  lemma ClaimOnlyRow(s: Box, w: Id, m: Message) returns (s': Box)
    requires Reachable(s) && s.rows.Keys == {1} && Locked(s) == {} && WorkerOf(s, w).Idle?
    requires Claimable(s.rows[1], s.now, CLAIM_TIMEOUT, MAX_ATTEMPTS)
    ensures Reachable(s') && s'.rows == s.rows[1 := ClaimRow(s.rows[1], w, s.now)] && s'.now == s.now && s'.log == s.log
    ensures s'.workers == s.workers[w := Draining([Record(1, s.rows[1].message, s.rows[1].attempts + 1, s.now)], Publishing)]
  {
    OnlyRowIsSelected(s, m);
    ReachStep(s, Lock(w, 25, {1}));
    var t := Apply(s, Lock(w, 25, {1}));
    OnlyRowIsClaimed(t, w);
    ReachStep(t, Commit(w, [1], true));
    s' := Apply(t, Commit(w, [1], true));
  }

  lemma PublishHead(s: Box, w: Id) returns (s': Box)
    requires Reachable(s) && AtHead(s, w, Publishing)
    ensures Reachable(s') && s'.rows == s.rows
    ensures s'.workers == s.workers[w := Draining(s.workers[w].batch, Marking)]
    ensures s'.log == s.log + [Entry(Head(s, w).message, Dispatcher(Head(s, w).id, Head(s, w).attempts))]
  {
    ReachStep(s, Publish(w, Acked));
    s' := Apply(s, Publish(w, Acked));
  }

  lemma OneRow(m: Message) returns (s: Box)
    ensures Reachable(s) && s.rows == map[1 := NewRow(m, 0)] && s.workers == map[] && s.log == [] && s.now == 0
  {
    assert Run(EMPTY, []) && After(EMPTY, []) == EMPTY;
    ReachStep(EMPTY, Insert(1, m, None));
    s := Apply(EMPTY, Insert(1, m, None));
  }

  lemma AMinuteLater(s: Box) returns (s': Box)
    requires Reachable(s)
    ensures Reachable(s') && s' == s.(now := s.now + 61 * SECOND)
  {
    ReachStep(s, Tick(61 * SECOND));
    s' := Apply(s, Tick(61 * SECOND));
  }

  lemma NobodyClaiming(s: Box)
    requires forall w :: w in s.workers ==> !s.workers[w].Claiming?
    ensures Locked(s) == {}
  {
  }

  lemma ClaimedOnce(m: Message) returns (s: Box)
    ensures Reachable(s) && s.log == [] && s.now == 0
    ensures s.rows == map[1 := ClaimRow(NewRow(m, 0), 1, 0)]
    ensures s.workers == map[1 := Draining([Record(1, m, 1, 0)], Publishing)]
  {
    s := OneRow(m);
    NobodyClaiming(s);
    s := ClaimOnlyRow(s, 1, m);
  }

  // A row claimed by worker 1, forgotten for a minute, and claimed by worker 2.
  lemma ClaimedTwice(m: Message) returns (s: Box)
    ensures Reachable(s) && s.log == []
    ensures s.workers == map[1 := Draining([Record(1, m, 1, 0)], Publishing),
                             2 := Draining([Record(1, m, 2, 61 * SECOND)], Publishing)]
  {
    s := ClaimedOnce(m);
    s := AMinuteLater(s);
    NobodyClaiming(s);
    s := ClaimOnlyRow(s, 2, m);
  }

  // Without promptness SKIP LOCKED does not keep a row to one worker: two of them can publish it.
  lemma SlowWorkersShare(m: Message)
    ensures exists s :: Reachable(s) && InBatch(s, 1, 0) && InBatch(s, 2, 0)
              && s.workers[1].batch[0].id == s.workers[2].batch[0].id && |SentBy(s.log, s.workers[1].batch[0].id)| == 2
  {
    var s := ClaimedTwice(m);
    s := PublishHead(s, 1);
    s := PublishHead(s, 2);
    assert SentBy(s.log, 1) == {0, 1};
    assert InBatch(s, 1, 0) && InBatch(s, 2, 0);
  }
}
