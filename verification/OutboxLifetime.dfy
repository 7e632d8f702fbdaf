/**
 What can still become of a row: which rows are claimed again, shared, published or given up, each with its exact
 condition, over every run that may follow.
 */
module OutboxLifetime {
  import opened Common
  import opened Messages
  import opened Outbox
  import opened OutboxInvariant
  import opened OutboxTheorems

  /******* Recorded failures *******/

  // A failure that takes effect is that of the row's current claim: its number, its time, its backoff.
  lemma RecordedFailureIsCurrent(s: Box, w: Id, call: Call)
    requires Reachable(s) && Enabled(s, Fail(w, call)) && !call.Lost? && FailureApplies(s.rows, Head(s, w).id, w)
    ensures var c, row, after := Head(s, w), s.rows[Head(s, w).id], Apply(s, Fail(w, call)).rows[Head(s, w).id];
            && row.attempts == c.attempts && row.claimedAt == Some(c.claimedAt) && row.message == c.message
            && after.nextAttemptAt == s.now + Backoff(row.attempts)
            && after.status == if row.attempts == MAX_ATTEMPTS then Failed else Pending
  {
    ReachableInv(s);
    assert InBatch(s, w, 0) && RecordOk(s, w, Head(s, w)) && RowOk(s.rows[Head(s, w).id]);
  }

  /******* FAILED rows *******/

  // The mark of the direct publisher does not ask for the status.
  predicate MarksDirectly(s: Box, step: Step, r: Id) {
    step.DirectMark? && !step.call.Lost? && step.direct in s.direct && s.direct[step.direct].row == r
  }

  ghost predicate MarkedDirectly(s: Box, steps: seq<Step>, r: Id)
    requires Run(s, steps)
    decreases steps
  {
    steps != [] && (MarksDirectly(s, steps[0], r) || MarkedDirectly(Apply(s, steps[0]), steps[1..], r))
  }

  lemma HeldIsNotSettled(s: Box, w: Id, r: Id)
    requires LocksOk(s) && Holds(s, w, r)
    ensures r in s.rows && !Settled(s.rows[r])
  {
  }

  lemma SettledIsNotHeld(s: Box, r: Id)
    requires LocksOk(s) && r in s.rows && Settled(s.rows[r])
    ensures r !in Locked(s) && forall w :: !Holds(s, w, r)
  {
    if w :| Holds(s, w, r) { HeldIsNotSettled(s, w, r); }
  }

  // Workers leave a FAILED row alone: none holds it, and none owns it.
  lemma WorkersSpareFailed(s: Box, step: Step, r: Id)
    requires r in s.rows && s.rows[r].status == Failed && s.rows[r].claimedBy == None && (forall w :: !Holds(s, w, r))
    requires Enabled(s, step) && !step.DirectMark?
    ensures r in Apply(s, step).rows && Apply(s, step).rows[r] == s.rows[r]
  {
    if step.Commit? {
      assert r !in ToSet(step.order) by { assert !Holds(s, step.w, r); }
    }
  }

  lemma FailedRowMoves(s: Box, step: Step, r: Id)
    requires Inv(s) && Enabled(s, step) && r in s.rows && s.rows[r].status == Failed
    ensures r in Apply(s, step).rows
    ensures Apply(s, step).rows[r].status == if MarksDirectly(s, step, r) then Published else Failed
  {
    assert RowOk(s.rows[r]);
    if !step.DirectMark? {
      SettledIsNotHeld(s, r);
      WorkersSpareFailed(s, step, r);
    }
  }

  // FAILED is final exactly as long as no direct publisher marks the row; then it becomes PUBLISHED, and stays so.
  lemma {:induction false} FailedIsFinalExactly(s: Box, steps: seq<Step>, r: Id)
    requires Inv(s) && Run(s, steps) && r in s.rows && s.rows[r].status == Failed
    ensures r in After(s, steps).rows
    ensures After(s, steps).rows[r].status == if MarkedDirectly(s, steps, r) then Published else Failed
    decreases steps
  {
    if steps != [] {
      StepKeepsInv(s, steps[0]);
      FailedRowMoves(s, steps[0], r);
      if MarksDirectly(s, steps[0], r) {
        PublishedIsFinal(Apply(s, steps[0]), steps[1..], r);
      } else {
        FailedIsFinalExactly(Apply(s, steps[0]), steps[1..], r);
      }
    }
  }

  // Any acknowledged direct publisher can still do so.
  lemma LateMarkPublishes(s: Box, t: Id)
    requires Reachable(s) && t in s.direct && s.direct[t].acked && s.direct[t].row in s.rows
    requires s.rows[s.direct[t].row].status == Failed
    ensures Enabled(s, DirectMark(t, Done)) && Apply(s, DirectMark(t, Done)).rows[s.direct[t].row].status == Published
  {
    ReachableInv(s);
    assert RowOk(s.rows[s.direct[t].row]);
    SettledIsNotHeld(s, s.direct[t].row);
  }

  ghost predicate Named(s: Box, r: Id) {
    exists t :: t in s.direct && s.direct[t].row == r
  }

  ghost predicate Leaves(s: Box, steps: seq<Step>, r: Id) {
    Run(s, steps) && (r in After(s, steps).rows ==> After(s, steps).rows[r].status != Failed)
  }

  lemma UnnamedStays(s: Box, step: Step, r: Id)
    requires Enabled(s, step) && r in s.rows && !Named(s, r)
    ensures !Named(Apply(s, step), r)
  {
  }

  lemma {:induction false} UnnamedFailedStays(s: Box, steps: seq<Step>, r: Id)
    requires Inv(s) && Run(s, steps) && r in s.rows && s.rows[r].status == Failed && !Named(s, r)
    ensures !Leaves(s, steps, r)
    decreases steps
  {
    if steps != [] {
      StepKeepsInv(s, steps[0]);
      FailedRowMoves(s, steps[0], r);
      UnnamedStays(s, steps[0], r);
      UnnamedFailedStays(Apply(s, steps[0]), steps[1..], r);
    }
  }

  // A task that has published marks the row; any other publishes first.
  lemma NamedFailedLeaves(s: Box, t: Id) returns (steps: seq<Step>)
    requires Reachable(s) && t in s.direct && s.direct[t].row in s.rows && s.rows[s.direct[t].row].status == Failed
    ensures Leaves(s, steps, s.direct[t].row)
  {
    if s.direct[t].acked {
      LateMarkPublishes(s, t);
      RunOne(s, DirectMark(t, Done));
      steps := [DirectMark(t, Done)];
    } else {
      var publish := DirectPublish(t, Acked);
      ReachStep(s, publish);
      LateMarkPublishes(Apply(s, publish), t);
      RunTwo(s, publish, DirectMark(t, Done));
      steps := [publish, DirectMark(t, Done)];
    }
  }

  // A FAILED row can still leave FAILED in some run exactly when a direct publisher has it in hand, acknowledged or not.
  lemma FailedCanLeaveExactly(s: Box, r: Id)
    requires Reachable(s) && r in s.rows && s.rows[r].status == Failed
    ensures (exists steps :: Leaves(s, steps, r)) <==> (exists t :: t in s.direct && s.direct[t].row == r)
  {
    ReachableInv(s);
    if t :| t in s.direct && s.direct[t].row == r {
      var steps := NamedFailedLeaves(s, t);
    } else {
      forall steps ensures !Leaves(s, steps, r) {
        if Run(s, steps) { UnnamedFailedStays(s, steps, r); }
      }
    }
  }

  /******* Settled rows *******/

  lemma SettledMove(s: Box, s': Box, r: Id)
    requires RowsOk(s) && HistoryOk(s) && LocksOk(s) && TableMoves(s, s') && r in s.rows && Settled(s.rows[r])
    ensures Settled(s'.rows[r]) && s'.rows[r].attempts == s.rows[r].attempts
  {
    assert Moves(s, s', r);
    if w :| IsClaimed(s, s', r, w) { HeldIsNotSettled(s, w, r); }
  }

  lemma SettledRowMoves(s: Box, step: Step, r: Id)
    requires Inv(s) && Enabled(s, step) && r in s.rows && Settled(s.rows[r])
    ensures r in Apply(s, step).rows && Settled(Apply(s, step).rows[r])
    ensures Apply(s, step).rows[r].attempts == s.rows[r].attempts
  {
    StepMoves(s, step);
    SettledMove(s, Apply(s, step), r);
  }

  lemma {:induction false} SettledForever(s: Box, steps: seq<Step>, r: Id)
    requires Inv(s) && Run(s, steps) && r in s.rows && Settled(s.rows[r])
    ensures r in After(s, steps).rows && Settled(After(s, steps).rows[r])
    ensures After(s, steps).rows[r].attempts == s.rows[r].attempts
    decreases steps
  {
    if steps != [] {
      StepKeepsInv(s, steps[0]);
      SettledRowMoves(s, steps[0], r);
      SettledForever(Apply(s, steps[0]), steps[1..], r);
    }
  }

  /******* A run that claims a row *******/

  lemma {:induction false} Above(ids: set<Id>) returns (n: Id)
    ensures forall x :: x in ids ==> x < n
    decreases ids
  {
    n := 0;
    if ids != {} {
      var x: Id :| x in ids;
      var m := Above(ids - {x});
      n := Max(m, x + 1);
      assert forall y :: y in ids ==> y == x || y in ids - {x};
    }
  }

  lemma {:induction false} OrderOf(ids: set<Id>) returns (order: seq<Id>)
    ensures Distinct(order) && ToSet(order) == ids && |order| == |ids|
    decreases ids
  {
    order := [];
    if ids != {} {
      var x: Id :| x in ids;
      var rest := OrderOf(ids - {x});
      assert x !in ToSet(rest);
      order := rest + [x];
      assert ToSet(order) == ToSet(rest) + {x};
    }
  }

  function ClaimableNow(s: Box): set<Id> {
    set r | r in s.rows && r !in Locked(s) && Claimable(s.rows[r], s.now, CLAIM_TIMEOUT, MAX_ATTEMPTS)
  }

  lemma RunOne(s: Box, a: Step)
    requires Enabled(s, a)
    ensures Run(s, [a]) && After(s, [a]) == Apply(s, a)
  {
    assert [a][1..] == [];
  }

  lemma RunTwo(s: Box, a: Step, b: Step)
    requires Enabled(s, a) && Enabled(Apply(s, a), b)
    ensures Run(s, [a, b]) && After(s, [a, b]) == Apply(Apply(s, a), b)
  {
    assert [a, b][1..] == [b];
    RunOne(Apply(s, a), b);
  }

  function Claim(v: Id, limit: nat, order: seq<Id>): seq<Step> {
    [Lock(v, limit, ToSet(order)), Commit(v, order, true)]
  }

  lemma ClaimRuns(s: Box, v: Id, limit: nat, order: seq<Id>)
    requires Enabled(s, Lock(v, limit, ToSet(order))) && Distinct(order)
    ensures Run(s, Claim(v, limit, order))
    ensures After(s, Claim(v, limit, order)) == Apply(Apply(s, Lock(v, limit, ToSet(order))), Commit(v, order, true))
  {
    RunTwo(s, Lock(v, limit, ToSet(order)), Commit(v, order, true));
  }

  // Record j of v stands for claim number k of row r.
  ghost predicate Stands(s: Box, v: Id, j: int, r: Id, k: nat) {
    InBatch(s, v, j) && s.workers[v].batch[j].id == r && s.workers[v].batch[j].attempts == k
  }

  lemma CommitGivesRow(s: Box, v: Id, order: seq<Id>, r: Id) returns (j: nat)
    requires Enabled(s, Commit(v, order, true)) && r in order
    ensures var s' := Apply(s, Commit(v, order, true));
            Stands(s', v, j, r, s.rows[r].attempts + 1) && Unsent(s', v, j)
            && s'.workers == s.workers[v := s'.workers[v]]
  {
    assert r in ToSet(order);
    j :| 0 <= j < |order| && order[j] == r;
    assert forall x :: x in order ==> x in ToSet(order);
  }

  // The oldest of some rows: none that is left is older.
  ghost predicate Foremost(rows: Table, candidates: set<Id>, ids: set<Id>) {
    && ids <= candidates <= rows.Keys
    && forall t, x :: t in ids && x in candidates - ids ==> rows[t].createdAt <= rows[x].createdAt
  }

  lemma {:induction false} OldestOf(rows: Table, candidates: set<Id>) returns (x: Id)
    requires candidates != {} && candidates <= rows.Keys
    ensures x in candidates && forall y :: y in candidates ==> rows[x].createdAt <= rows[y].createdAt
    decreases candidates
  {
    x :| x in candidates;
    if candidates != {x} {
      var y := OldestOf(rows, candidates - {x});
      if rows[y].createdAt < rows[x].createdAt { x := y; }
      assert forall z :: z in candidates ==> z in candidates - {x} || z == x;
    }
  }

  // Up to the limit, more of the oldest can be added.
  lemma {:induction false} Extend(rows: Table, candidates: set<Id>, ids: set<Id>, limit: nat) returns (more: set<Id>)
    requires Foremost(rows, candidates, ids) && |ids| <= limit
    ensures Foremost(rows, candidates, more) && ids <= more
    ensures |more| <= limit && (|more| < limit ==> more == candidates)
    decreases limit - |ids|
  {
    more := ids;
    if |ids| < limit && ids != candidates {
      var x := OldestOf(rows, candidates - ids);
      more := Extend(rows, candidates, ids + {x}, limit);
    }
  }

  lemma ForemostIsSelected(s: Box, ids: set<Id>, limit: nat)
    requires Foremost(s.rows, ClaimableNow(s), ids) && |ids| <= limit && (|ids| < limit ==> ids == ClaimableNow(s))
    ensures Selection(s.rows, Locked(s), s.now, CLAIM_TIMEOUT, MAX_ATTEMPTS, limit, ids)
  {
  }

  ghost predicate CanClaim(s: Box, v: Id, limit: nat, order: seq<Id>) {
    && Enabled(s, Lock(v, limit, ToSet(order)))
    && Enabled(Apply(s, Lock(v, limit, ToSet(order))), Commit(v, order, true))
  }

  function Claimed(s: Box, v: Id, limit: nat, order: seq<Id>): Box
    requires CanClaim(s, v, limit, order)
  {
    Apply(Apply(s, Lock(v, limit, ToSet(order))), Commit(v, order, true))
  }

  // An idle worker can claim any of the oldest rows within the limit.
  lemma ClaimOldest(s: Box, v: Id, limit: nat, ids: set<Id>) returns (order: seq<Id>)
    requires WorkerOf(s, v).Idle? && Foremost(s.rows, ClaimableNow(s), ids) && |ids| <= limit
    ensures ids <= ToSet(order) <= ClaimableNow(s) && (|ToSet(order)| < limit ==> ToSet(order) == ClaimableNow(s))
    ensures CanClaim(s, v, limit, order)
    ensures Run(s, Claim(v, limit, order)) && After(s, Claim(v, limit, order)) == Claimed(s, v, limit, order)
  {
    var more := Extend(s.rows, ClaimableNow(s), ids, limit);
    ForemostIsSelected(s, more, limit);
    order := OrderOf(more);
    ClaimRuns(s, v, limit, order);
  }

  // A claim that names the row puts its record into the batch.
  lemma ClaimGivesRow(s: Box, v: Id, limit: nat, order: seq<Id>, r: Id) returns (j: nat)
    requires CanClaim(s, v, limit, order) && r in order
    ensures var s' := Claimed(s, v, limit, order);
            r in s.rows && Stands(s', v, j, r, s.rows[r].attempts + 1) && Unsent(s', v, j)
            && s'.workers == s.workers[v := s'.workers[v]]
  {
    assert r in ToSet(order);
    j := CommitGivesRow(Apply(s, Lock(v, limit, ToSet(order))), v, order, r);
  }

  lemma ClaimedWorkers(s: Box, v: Id, limit: nat, order: seq<Id>)
    requires CanClaim(s, v, limit, order) && WorkerOf(s, v).Idle?
    ensures var s' := Claimed(s, v, limit, order);
            s'.workers.Keys == s.workers.Keys + {v} && KeepsWorkers(s, s', v) && !s'.workers[v].Claiming?
  {
  }

  lemma SameLocks(s: Box, s': Box, v: Id)
    requires WorkerOf(s, v).Idle? && s'.workers.Keys == s.workers.Keys + {v} && KeepsWorkers(s, s', v)
    requires !s'.workers[v].Claiming?
    ensures Locked(s') == Locked(s)
  {
  }

  lemma ClaimedRows(s: Box, v: Id, limit: nat, order: seq<Id>)
    requires CanClaim(s, v, limit, order)
    ensures var s' := Claimed(s, v, limit, order); s'.rows == ClaimRows(s.rows, ToSet(order), v, s.now) && s'.now == s.now
  {
  }

  // Claimed rows are not claimable; the others are as before.
  lemma ClaimShrinks(s: Box, v: Id, limit: nat, order: seq<Id>)
    requires WorkerOf(s, v).Idle? && CanClaim(s, v, limit, order)
    ensures var s' := Claimed(s, v, limit, order);
            && ClaimableNow(s') == ClaimableNow(s) - ToSet(order)
            && forall r :: r in s.rows && r !in ToSet(order) ==> r in s'.rows && s'.rows[r] == s.rows[r]
  {
    ClaimedRows(s, v, limit, order);
    ClaimedWorkers(s, v, limit, order);
    SameLocks(s, Claimed(s, v, limit, order), v);
  }

  // The steps of a run are those of the clock, and of the claim statements of workers that have no batch in s; what is
  // locked from now on is locked as the services do.
  predicate OnlyClaims(s: Box, steps: seq<Step>) {
    forall step :: step in steps ==>
      || step.Tick?
      || ((step.Lock? || step.Commit?) && !WorkerOf(s, step.w).Draining? && (step.Lock? ==> step.limit == CLAIM_LIMIT))
  }

  // After the run v has a further claim of the row, which it has not sent yet; no other worker of s has moved.
  ghost predicate Gets(s: Box, steps: seq<Step>, v: Id, j: int, r: Id) {
    && Run(s, steps) && r in s.rows
    && Stands(After(s, steps), v, j, r, s.rows[r].attempts + 1) && Unsent(After(s, steps), v, j)
    && KeepsWorkers(s, After(s, steps), v)
  }

  ghost predicate KeepsWorkers(s: Box, s': Box, v: Id) {
    forall w :: w in s.workers && w != v ==> w in s'.workers && s'.workers[w] == s.workers[w]
  }

  // t is s after a claim of these rows by a new worker.
  ghost predicate LeavesFewer(s: Box, u: Id, taken: set<Id>, t: Box) {
    && u !in s.workers && KeepsWorkers(s, t, u) && t.workers.Keys == s.workers.Keys + {u}
    && taken <= ClaimableNow(s) && (|taken| < CLAIM_LIMIT ==> taken == ClaimableNow(s))
    && ClaimableNow(t) == ClaimableNow(s) - taken
    && forall r :: r in s.rows && r !in taken ==> r in t.rows && t.rows[r] == s.rows[r]
  }

  // New workers claim, 25 rows each, the oldest first, until the row is among them.
  lemma {:induction false} NewcomersClaim(s: Box, r: Id) returns (steps: seq<Step>, v: Id, j: nat)
    requires r in ClaimableNow(s)
    ensures Gets(s, steps, v, j, r) && OnlyClaims(s, steps) && v !in s.workers
    decreases |ClaimableNow(s)|
  {
    var order;
    v, order := NewcomerClaims(s);
    steps := Claim(v, CLAIM_LIMIT, order);
    var t, u := After(s, steps), v;
    if r in ToSet(order) {
      j := NewcomerGets(s, v, order, r);
    } else {
      FewerClaimable(s, u, ToSet(order), t, r);
      var rest;
      rest, v, j := NewcomersClaim(t, r);
      FirstThenOthers(s, steps, t, u, rest, v, j, r);
      steps := steps + rest;
    }
  }

  lemma NewcomerClaims(s: Box) returns (v: Id, order: seq<Id>)
    ensures v !in s.workers && CanClaim(s, v, CLAIM_LIMIT, order)
    ensures Run(s, Claim(v, CLAIM_LIMIT, order)) && OnlyClaims(s, Claim(v, CLAIM_LIMIT, order))
    ensures After(s, Claim(v, CLAIM_LIMIT, order)) == Claimed(s, v, CLAIM_LIMIT, order)
    ensures LeavesFewer(s, v, ToSet(order), After(s, Claim(v, CLAIM_LIMIT, order)))
  {
    v := Above(s.workers.Keys);
    assert v !in s.workers.Keys;
    assert Foremost(s.rows, ClaimableNow(s), {});
    order := ClaimOldest(s, v, CLAIM_LIMIT, {});
    ClaimShrinks(s, v, CLAIM_LIMIT, order);
    ClaimedWorkers(s, v, CLAIM_LIMIT, order);
  }

  lemma NewcomerGets(s: Box, v: Id, order: seq<Id>, r: Id) returns (j: nat)
    requires CanClaim(s, v, CLAIM_LIMIT, order) && r in ToSet(order) && v !in s.workers
    requires Run(s, Claim(v, CLAIM_LIMIT, order))
    requires After(s, Claim(v, CLAIM_LIMIT, order)) == Claimed(s, v, CLAIM_LIMIT, order)
    ensures Gets(s, Claim(v, CLAIM_LIMIT, order), v, j, r)
  {
    j := ClaimGivesRow(s, v, CLAIM_LIMIT, order, r);
  }

  lemma FewerClaimable(s: Box, u: Id, taken: set<Id>, t: Box, r: Id)
    requires LeavesFewer(s, u, taken, t) && r in ClaimableNow(s) - taken
    ensures |ClaimableNow(t)| < |ClaimableNow(s)| && r in ClaimableNow(t)
    ensures KeepsWorkers(s, t, u) && t.workers.Keys == s.workers.Keys + {u}
    ensures r in s.rows && r in t.rows && s.rows[r] == t.rows[r]
  {
  }

  lemma FirstThenOthers(s: Box, first: seq<Step>, t: Box, u: Id, rest: seq<Step>, v: Id, j: nat, r: Id)
    requires Run(s, first) && After(s, first) == t && OnlyClaims(s, first)
    requires u !in s.workers && t.workers.Keys == s.workers.Keys + {u} && KeepsWorkers(s, t, u)
    requires r in s.rows && r in t.rows && s.rows[r] == t.rows[r]
    requires Gets(t, rest, v, j, r) && OnlyClaims(t, rest) && v !in t.workers
    ensures Gets(s, first + rest, v, j, r) && OnlyClaims(s, first + rest)
  {
    RunJoin(s, first, rest);
    forall w | WorkerOf(s, w).Draining? ensures WorkerOf(t, w) == WorkerOf(s, w) { assert w in s.workers && w != u; }
    OnlyClaimsJoin(s, first, t, rest);
  }

  lemma OnlyClaimsJoin(s: Box, first: seq<Step>, t: Box, rest: seq<Step>)
    requires OnlyClaims(s, first) && OnlyClaims(t, rest)
    requires forall w :: WorkerOf(s, w).Draining? ==> WorkerOf(t, w) == WorkerOf(s, w)
    ensures OnlyClaims(s, first + rest)
  {
  }

  // How long until a row that is not settled can be claimed.
  function Wait(s: Box, r: Id): nat
    requires r in s.rows
  {
    var row := s.rows[r];
    if row.status == Processing && row.claimedAt.Some? then Max(0, row.claimedAt.value + CLAIM_TIMEOUT + 1 - s.now)
    else Max(0, row.nextAttemptAt - s.now)
  }

  lemma WaitMakesClaimable(s: Box, r: Id)
    requires Inv(s) && r in s.rows && !Settled(s.rows[r]) && r !in Locked(s)
    ensures r in ClaimableNow(Apply(s, Tick(Wait(s, r))))
  {
    assert RowOk(s.rows[r]);
  }

  // A claim statement that holds the row goes through.
  lemma HolderCommits(s: Box, v: Id, r: Id) returns (steps: seq<Step>, j: nat)
    requires LocksOk(s) && Holds(s, v, r)
    ensures Gets(s, steps, v, j, r) && OnlyClaims(s, steps)
  {
    var order := OrderOf(s.workers[v].ids);
    forall x | x in s.workers[v].ids ensures x in s.rows { assert Holds(s, v, x); }
    RunOne(s, Commit(v, order, true));
    steps := [Commit(v, order, true)];
    assert r in ToSet(order);
    j := CommitGivesRow(s, v, order, r);
  }

  // A new worker gets the row after a wait.
  lemma NewcomerWaits(s: Box, wait: nat, r: Id) returns (steps: seq<Step>, v: Id, j: nat)
    requires r in ClaimableNow(Apply(s, Tick(wait)))
    ensures Gets(s, steps, v, j, r) && OnlyClaims(s, steps) && v !in s.workers
  {
    RunOne(s, Tick(wait));
    var rest;
    rest, v, j := NewcomersClaim(Apply(s, Tick(wait)), r);
    RunJoin(s, [Tick(wait)], rest);
    steps := [Tick(wait)] + rest;
  }

  // Every row that is not settled can get into one more batch, whoever has it now.
  lemma CanBeClaimed(s: Box, r: Id) returns (steps: seq<Step>, v: Id, j: nat)
    requires Inv(s) && r in s.rows && !Settled(s.rows[r])
    ensures Gets(s, steps, v, j, r) && OnlyClaims(s, steps) && !WorkerOf(s, v).Draining?
  {
    if v' :| v' in s.workers && Holds(s, v', r) {
      v := v';
      steps, j := HolderCommits(s, v, r);
    } else {
      WaitMakesClaimable(s, r);
      steps, v, j := NewcomerWaits(s, Wait(s, r), r);
    }
  }

  // The run is one of dispatchers and direct publishers as the services set them up.
  predicate Usual(steps: seq<Step>) {
    forall step :: step in steps ==> !step.Insert? && (step.Lock? ==> step.limit == CLAIM_LIMIT)
  }

  ghost predicate ClaimsAgain(s: Box, steps: seq<Step>, r: Id) {
    Run(s, steps) && (r in s.rows && r in After(s, steps).rows ==> s.rows[r].attempts != After(s, steps).rows[r].attempts)
  }

  // A row is settled exactly when no run ever claims it again; otherwise the dispatchers can claim it as they are.
  lemma SettledExactly(s: Box, r: Id)
    requires Reachable(s) && r in s.rows
    ensures Settled(s.rows[r]) ==> forall steps :: !ClaimsAgain(s, steps, r)
    ensures !Settled(s.rows[r]) ==> exists steps :: ClaimsAgain(s, steps, r) && Usual(steps)
  {
    ReachableInv(s);
    if Settled(s.rows[r]) {
      forall steps ensures !ClaimsAgain(s, steps, r) {
        if Run(s, steps) { SettledForever(s, steps, r); }
      }
    } else {
      var steps, v, j := CanBeClaimed(s, r);
      RunKeepsInv(s, steps);
      assert RecordOk(After(s, steps), v, After(s, steps).workers[v].batch[j]);
      assert ClaimsAgain(s, steps, r) && Usual(steps);
    }
  }

  /******* Rows in two batches *******/

  // A claim of v after which r is in the batches of both workers.
  ghost predicate ClaimShares(s: Box, w: Id, i: int, v: Id, r: Id, limit: nat, order: seq<Id>) {
    && Run(s, Claim(v, limit, order))
    && var s' := After(s, Claim(v, limit, order));
       && InBatch(s', w, i) && s'.workers[w].batch[i].id == r
       && exists j :: InBatch(s', v, j) && s'.workers[v].batch[j].id == r
  }

  // What a claim statement takes before the row, if it is ordered by age.
  function Older(s: Box, r: Id): set<Id>
    requires r in s.rows
  {
    set x | x in ClaimableNow(s) && s.rows[x].createdAt < s.rows[r].createdAt
  }

  lemma {:induction false} SmallerThan(part: set<Id>, whole: set<Id>, r: Id)
    requires part <= whole - {r} && r in whole
    ensures |part| < |whole|
    decreases part
  {
    if part != {} {
      var x: Id :| x in part;
      SmallerThan(part - {x}, whole - {x}, r);
    }
  }

  lemma SharingNeedsTheGuard(s: Box, w: Id, i: int, v: Id, r: Id, limit: nat, order: seq<Id>)
    requires WorkerOf(s, v).Idle? && ClaimShares(s, w, i, v, r, limit, order)
    ensures r in ClaimableNow(s) && |Older(s, r)| < limit
  {
    var lock, commit := Lock(v, limit, ToSet(order)), Commit(v, order, true);
    assert Claim(v, limit, order)[1..] == [commit];
    assert Run(Apply(s, lock), [commit]);
    var t := Apply(s, lock);
    RunTwo(s, lock, commit);
    var s' := Apply(t, commit);
    var j :| InBatch(s', v, j) && s'.workers[v].batch[j].id == r;
    assert order[j] in ToSet(order);
    SmallerThan(Older(s, r), ToSet(order), r);
  }

  lemma OlderAreForemost(s: Box, r: Id)
    requires r in ClaimableNow(s)
    ensures Foremost(s.rows, ClaimableNow(s), Older(s, r) + {r}) && |Older(s, r) + {r}| == |Older(s, r)| + 1
  {
  }

  lemma ShareNow(s: Box, w: Id, i: int, v: Id, limit: nat) returns (order: seq<Id>)
    requires InBatch(s, w, i) && WorkerOf(s, v).Idle? && s.workers[w].batch[i].id in ClaimableNow(s)
    requires |Older(s, s.workers[w].batch[i].id)| < limit
    ensures ClaimShares(s, w, i, v, s.workers[w].batch[i].id, limit, order)
  {
    var r := s.workers[w].batch[i].id;
    OlderAreForemost(s, r);
    order := ClaimOldest(s, v, limit, Older(s, r) + {r});
    assert r in ToSet(order);
    var j := ClaimGivesRow(s, v, limit, order, r);
    assert InBatch(After(s, Claim(v, limit, order)), v, j);
  }

  // The row of a batched record can be claimed into a second batch at once exactly when no claim statement holds it,
  // it has attempts left, its backoff is over or its claim is more than the timeout ago, and fewer rows that can be claimed
  // are older than one claim takes.
  lemma SharedExactly(s: Box, w: Id, i: int, v: Id, limit: nat)
    requires Reachable(s) && InBatch(s, w, i) && WorkerOf(s, v).Idle?
    ensures var r := s.workers[w].batch[i].id;
            && r in s.rows
            && ((exists order :: ClaimShares(s, w, i, v, r, limit, order))
                <==> && r !in Locked(s) && s.rows[r].attempts < 8
                     && (|| (s.rows[r].status == Pending && s.rows[r].nextAttemptAt <= s.now)
                         || (s.rows[r].status == Processing && s.rows[r].claimedAt.Some?
                             && s.now - s.rows[r].claimedAt.value > 60 * SECOND))
                     && |Older(s, r)| < limit)
  {
    ReachableInv(s);
    var r := s.workers[w].batch[i].id;
    assert RecordOk(s, w, s.workers[w].batch[i]);
    if r in ClaimableNow(s) && |Older(s, r)| < limit {
      var order := ShareNow(s, w, i, v, limit);
    }
    if order :| ClaimShares(s, w, i, v, r, limit, order) { SharingNeedsTheGuard(s, w, i, v, r, limit, order); }
  }

  // A run in which w does nothing and another worker gets a further claim of the row w has.
  ghost predicate SharedLater(s: Box, w: Id, i: int, steps: seq<Step>, v: Id, j: int) {
    && InBatch(s, w, i) && s.workers[w].batch[i].id in s.rows
    && Run(s, steps) && (forall step :: step in steps ==> !ActsFor(step, w)) && v != w
    && var r := s.workers[w].batch[i].id;
       && InBatch(After(s, steps), w, i) && After(s, steps).workers[w].batch[i].id == r
       && Stands(After(s, steps), v, j, r, s.rows[r].attempts + 1)
  }

  lemma SettledIsNotSharedLater(s: Box, w: Id, i: int, steps: seq<Step>, v: Id, j: int)
    requires Inv(s) && SharedLater(s, w, i, steps, v, j)
    ensures !Settled(s.rows[s.workers[w].batch[i].id])
  {
    var r := s.workers[w].batch[i].id;
    RunKeepsInv(s, steps);
    assert RecordOk(After(s, steps), v, After(s, steps).workers[v].batch[j]);
    if Settled(s.rows[r]) { SettledForever(s, steps, r); }
  }

  // However slow w is: another worker can get the row sooner or later exactly when it is not settled, and then the
  // dispatchers as they are suffice.
  lemma SharedLaterExactly(s: Box, w: Id, i: int)
    requires Reachable(s) && InBatch(s, w, i)
    ensures s.workers[w].batch[i].id in s.rows
    ensures var settled := Settled(s.rows[s.workers[w].batch[i].id]);
            && (settled ==> forall steps, v, j :: !SharedLater(s, w, i, steps, v, j))
            && (!settled ==> exists steps, v, j :: SharedLater(s, w, i, steps, v, j) && Usual(steps))
  {
    ReachableInv(s);
    var r := s.workers[w].batch[i].id;
    assert RecordOk(s, w, s.workers[w].batch[i]);
    if Settled(s.rows[r]) {
      forall steps, v, j ensures !SharedLater(s, w, i, steps, v, j) {
        if SharedLater(s, w, i, steps, v, j) { SettledIsNotSharedLater(s, w, i, steps, v, j); }
      }
    } else {
      var steps, v, j := CanBeClaimed(s, r);
      assert v != w;
      assert SharedLater(s, w, i, steps, v, j) && Usual(steps);
    }
  }

  /******* Rows that can still be published *******/

  ghost predicate CanStillBePublished(s: Box, r: Id)
    requires r in s.rows
  {
    || !Settled(s.rows[r])
    || (exists w, i :: Unsent(s, w, i) && s.workers[w].batch[i].id == r)
    || (exists t :: t in s.direct && s.direct[t].row == r && !s.direct[t].acked)
  }

  ghost predicate Deliverable(s: Box, r: Id)
    requires r in s.rows
  {
    Logged(s.log, r) || CanStillBePublished(s, r)
  }

  // A worker can give up its first record at any point.
  lemma DropHead(s: Box, w: Id) returns (steps: seq<Step>)
    requires WorkerOf(s, w).Draining? && WorkerOf(s, w).batch != []
    ensures Run(s, steps) && Usual(steps)
    ensures After(s, steps).workers == s.workers[w := Drain(s.workers[w].batch[1..])]
  {
    if s.workers[w].phase == Failing {
      RunOne(s, Fail(w, Lost));
      steps := [Fail(w, Lost)];
    } else {
      var first := if s.workers[w].phase == Publishing then Publish(w, Rejected) else Mark(w, Lost);
      assert Enabled(s, first) && Apply(s, first).workers == s.workers[w := Draining(s.workers[w].batch, Failing)];
      RunTwo(s, first, Fail(w, Lost));
      steps := [first, Fail(w, Lost)];
    }
  }

  // The newest message of the log is this one, from row r.
  predicate EndsWith(log: seq<Entry>, m: Message, r: Id) {
    log != [] && log[|log| - 1].message == m && log[|log| - 1].via.row == r
  }

  lemma PublishLogs(s: Box, w: Id)
    requires AtHead(s, w, Publishing)
    ensures Run(s, [Publish(w, Acked)]) && EndsWith(After(s, [Publish(w, Acked)]).log, Head(s, w).message, Head(s, w).id)
  {
    RunOne(s, Publish(w, Acked));
  }

  lemma {:induction false} DrainTo(s: Box, w: Id, i: nat) returns (steps: seq<Step>)
    requires Unsent(s, w, i)
    ensures Run(s, steps) && Usual(steps)
    ensures EndsWith(After(s, steps).log, s.workers[w].batch[i].message, s.workers[w].batch[i].id)
    decreases i
  {
    if i == 0 {
      PublishLogs(s, w);
      steps := [Publish(w, Acked)];
    } else {
      var drop := DropHead(s, w);
      var t := After(s, drop);
      assert t.workers[w] == Drain(s.workers[w].batch[1..]) && Unsent(t, w, i - 1);
      var rest := DrainTo(t, w, i - 1);
      RunJoin(s, drop, rest);
      steps := drop + rest;
    }
  }

  lemma TaskPublishes(s: Box, t: Id)
    requires t in s.direct && !s.direct[t].acked
    ensures var step := DirectPublish(t, Acked);
            && Enabled(s, step) && Run(s, [step]) && After(s, [step]) == Apply(s, step)
            && EndsWith(After(s, [step]).log, s.direct[t].message, s.direct[t].row)
  {
    RunOne(s, DirectPublish(t, Acked));
  }

  lemma {:induction false} RunKeepsMessage(s: Box, steps: seq<Step>, r: Id)
    requires Inv(s) && Run(s, steps) && r in s.rows
    ensures r in After(s, steps).rows && After(s, steps).rows[r].message == s.rows[r].message
    ensures s.log <= After(s, steps).log
    decreases steps
  {
    if steps != [] {
      StepKeepsInv(s, steps[0]);
      StepCarriesRows(s, steps[0]);
      StepMovesLog(s, steps[0]);
      RunKeepsMessage(Apply(s, steps[0]), steps[1..], r);
    }
  }

  lemma CanGetMessage(s: Box, r: Id) returns (steps: seq<Step>, v: Id, j: nat)
    requires Inv(s) && r in s.rows && !Settled(s.rows[r])
    ensures Run(s, steps) && Usual(steps) && Unsent(After(s, steps), v, j)
    ensures var c := After(s, steps).workers[v].batch[j]; c.id == r && c.message == s.rows[r].message
  {
    steps, v, j := CanBeClaimed(s, r);
    RunKeepsMessage(s, steps, r);
    RunCarriesMessage(s, steps, v, j);
  }

  lemma RunCarriesMessage(s: Box, steps: seq<Step>, v: Id, j: int)
    requires Inv(s) && Run(s, steps) && InBatch(After(s, steps), v, j)
    ensures var t := After(s, steps);
            var c := t.workers[v].batch[j]; c.id in t.rows && c.message == t.rows[c.id].message
  {
    RunKeepsInv(s, steps);
    RecordCarriesMessage(After(s, steps), v, j);
  }

  lemma RecordCarriesMessage(s: Box, v: Id, j: int)
    requires BatchesOk(s) && InBatch(s, v, j)
    ensures var c := s.workers[v].batch[j]; c.id in s.rows && c.message == s.rows[c.id].message
  {
  }

  lemma ClaimAndPublish(s: Box, r: Id) returns (steps: seq<Step>)
    requires Inv(s) && r in s.rows && !Settled(s.rows[r])
    ensures Run(s, steps) && Usual(steps) && EndsWith(After(s, steps).log, s.rows[r].message, r)
  {
    var claim, v, j := CanGetMessage(s, r);
    var rest := DrainTo(After(s, claim), v, j);
    RunJoin(s, claim, rest);
    steps := claim + rest;
  }

  lemma CanPublish(s: Box, r: Id) returns (steps: seq<Step>)
    requires Inv(s) && r in s.rows && Deliverable(s, r)
    ensures Run(s, steps) && Usual(steps) && Logged(After(s, steps).log, r)
  {
    if Logged(s.log, r) {
      steps := [];
    } else if !Settled(s.rows[r]) {
      steps := ClaimAndPublish(s, r);
    } else if w, i :| Unsent(s, w, i) && s.workers[w].batch[i].id == r {
      steps := DrainTo(s, w, i);
    } else {
      var t :| t in s.direct && s.direct[t].row == r && !s.direct[t].acked;
      TaskPublishes(s, t);
      steps := [DirectPublish(t, Acked)];
    }
  }

  lemma StuckIsNotLogged(s: Box, step: Step, r: Id)
    requires Enabled(s, step) && r in s.rows && !Deliverable(s, r)
    ensures !Logged(Apply(s, step).log, r)
  {
    StepMovesLog(s, step);
    var log := Apply(s, step).log;
    if step.Publish? && AtHead(s, step.w, Publishing) { assert Unsent(s, step.w, 0); }
    forall i | 0 <= i < |log| ensures log[i].via.row != r { assert i < |s.log| ==> s.log[i].via.row != r; }
  }

  lemma StuckIsNotUnsent(s: Box, step: Step, r: Id, w: Id, i: int)
    requires Inv(s) && Enabled(s, step) && r in s.rows && !Deliverable(s, r) && Unsent(Apply(s, step), w, i)
    ensures Apply(s, step).workers[w].batch[i].id != r
  {
    if step.Commit? && step.w == w {
      CommitRecord(s, w, step.order, step.returned, i);
      SettledIsNotHeld(s, r);
    } else {
      UnsentOrigin(s, step, w, i);
    }
  }

  // A row that can no longer be published never can again.
  lemma StuckStaysStuck(s: Box, step: Step, r: Id)
    requires Inv(s) && Enabled(s, step) && r in s.rows && !Deliverable(s, r)
    ensures r in Apply(s, step).rows && !Deliverable(Apply(s, step), r)
  {
    var s' := Apply(s, step);
    SettledRowMoves(s, step, r);
    StuckIsNotLogged(s, step, r);
    forall w, i | Unsent(s', w, i) ensures s'.workers[w].batch[i].id != r { StuckIsNotUnsent(s, step, r, w, i); }
    forall t | t in s'.direct && s'.direct[t].row == r ensures s'.direct[t].acked { StepMovesDirect(s, step, t); }
  }

  lemma {:induction false} StuckForever(s: Box, steps: seq<Step>, r: Id)
    requires Inv(s) && Run(s, steps) && r in s.rows && !Deliverable(s, r)
    ensures !Logged(After(s, steps).log, r)
    decreases steps
  {
    if steps != [] {
      StepKeepsInv(s, steps[0]);
      StuckStaysStuck(s, steps[0], r);
      StuckForever(Apply(s, steps[0]), steps[1..], r);
    }
  }

  ghost predicate Reaches(s: Box, steps: seq<Step>, r: Id) {
    Run(s, steps) && Logged(After(s, steps).log, r)
  }

  // A message reaches the broker in some run exactly when its row is not settled, some worker or direct publisher still
  // has it in hand, or it is there already; and then the dispatchers as they are suffice.
  lemma DeliverableExactly(s: Box, r: Id)
    requires Reachable(s) && r in s.rows
    ensures Deliverable(s, r) ==> exists steps :: Reaches(s, steps, r) && Usual(steps)
    ensures !Deliverable(s, r) ==> forall steps :: !Reaches(s, steps, r)
  {
    ReachableInv(s);
    if Deliverable(s, r) {
      var steps := CanPublish(s, r);
      assert Reaches(s, steps, r) && Usual(steps);
    } else {
      forall steps ensures !Reaches(s, steps, r) {
        if Run(s, steps) { StuckForever(s, steps, r); }
      }
    }
  }
}
