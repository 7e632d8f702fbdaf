/**
 Which rows are due, and which go first. Told from the moments of their inserts: a row that was never claimed is due, and
 of two rows the one inserted earlier is claimed no later.
 */
module OutboxAge {
  import opened Common
  import opened Messages
  import opened Outbox
  import opened OutboxInvariant
  import opened OutboxTheorems
  import opened OutboxLifetime

  /******* Due rows *******/

  ghost predicate UnclaimedAreDue(s: Box) {
    forall r :: r in s.rows && s.rows[r].attempts == 0 ==> s.rows[r].nextAttemptAt <= s.now
  }

  lemma MovesKeepDue(s: Box, s': Box)
    requires RowsOk(s) && HistoryOk(s) && TableMoves(s, s') && s.now <= s'.now && s'.rows.Keys == s.rows.Keys
    requires UnclaimedAreDue(s)
    ensures UnclaimedAreDue(s')
  {
    forall r | r in s'.rows && s'.rows[r].attempts == 0 ensures s'.rows[r].nextAttemptAt <= s'.now {
      assert Moves(s, s', r);
    }
  }

  lemma TimeMoves(s: Box, step: Step)
    requires Enabled(s, step)
    ensures s.now <= Apply(s, step).now
  {
  }

  lemma StepKeepsDue(s: Box, step: Step)
    requires Inv(s) && Enabled(s, step) && UnclaimedAreDue(s)
    ensures UnclaimedAreDue(Apply(s, step))
  {
    if !step.Insert? {
      StepMoves(s, step);
      StepKeepsKeys(s, step);
      TimeMoves(s, step);
      MovesKeepDue(s, Apply(s, step));
    }
  }

  lemma {:induction false} RunKeepsDue(s: Box, steps: seq<Step>)
    requires Inv(s) && Run(s, steps) && UnclaimedAreDue(s)
    ensures UnclaimedAreDue(After(s, steps))
    decreases steps
  {
    if steps != [] {
      StepKeepsInv(s, steps[0]);
      StepKeepsDue(s, steps[0]);
      RunKeepsDue(Apply(s, steps[0]), steps[1..]);
    }
  }

  // In every reachable state a PENDING row that was never claimed can be claimed at once, unless a claim statement has it.
  lemma UnclaimedIsClaimable(s: Box, r: Id)
    requires Reachable(s) && r in s.rows && s.rows[r].status == Pending && s.rows[r].attempts == 0 && r !in Locked(s)
    ensures r in ClaimableNow(s)
  {
    var steps :| Run(EMPTY, steps) && After(EMPTY, steps) == s;
    InitInv();
    RunKeepsDue(EMPTY, steps);
  }

  // A row that is inserted at any time can be claimed at that time.
  lemma NewRowIsClaimable(s: Box, id: Id, message: Message, task: Option<(Id, Message)>)
    requires Reachable(s) && Enabled(s, Insert(id, message, task))
    ensures id in ClaimableNow(Apply(s, Insert(id, message, task)))
  {
    ReachableInv(s);
    var s' := Apply(s, Insert(id, message, task));
    assert Locked(s') == Locked(s);
    if id in Locked(s) {
      var w :| w in s.workers && s.workers[w].Claiming? && id in s.workers[w].ids;
      assert Holds(s, w, id);
    }
  }

  /******* Age *******/

  lemma StepKeepsBirth(s: Box, step: Step, r: Id)
    requires Enabled(s, step) && r in s.rows
    ensures r in Apply(s, step).rows && Apply(s, step).rows[r].createdAt == s.rows[r].createdAt
  {
  }

  lemma StepGivesBirth(s: Box, step: Step, x: Id)
    requires Enabled(s, step) && x in Apply(s, step).rows && x !in s.rows
    ensures Apply(s, step).rows[x].createdAt == s.now
  {
    if !step.Insert? { StepKeepsKeys(s, step); }
  }

  lemma {:induction false} RunKeepsBirth(s: Box, steps: seq<Step>, r: Id)
    requires Run(s, steps) && r in s.rows
    ensures r in After(s, steps).rows && After(s, steps).rows[r].createdAt == s.rows[r].createdAt
    decreases steps
  {
    if steps != [] {
      StepKeepsBirth(s, steps[0], r);
      RunKeepsBirth(Apply(s, steps[0]), steps[1..], r);
    }
  }

  // What appears in a run is born in it.
  lemma {:induction false} RunGivesBirth(s: Box, steps: seq<Step>, x: Id)
    requires Run(s, steps) && x in After(s, steps).rows && x !in s.rows
    ensures s.now <= After(s, steps).rows[x].createdAt <= After(s, steps).now
    decreases steps
  {
    if steps != [] {
      var next := Apply(s, steps[0]);
      TimeMoves(s, steps[0]);
      if x in next.rows {
        StepGivesBirth(s, steps[0], x);
        RunKeepsBirth(next, steps[1..], x);
        RunTakesTime(next, steps[1..]);
      } else {
        RunGivesBirth(next, steps[1..], x);
      }
    }
  }

  lemma {:induction false} RunTakesTime(s: Box, steps: seq<Step>)
    requires Run(s, steps)
    ensures s.now <= After(s, steps).now
    decreases steps
  {
    if steps != [] {
      TimeMoves(s, steps[0]);
      RunTakesTime(Apply(s, steps[0]), steps[1..]);
    }
  }

  // Row r is in the table at s, time passes in run a, and row x is not there yet. Run b ends in u.
  ghost predicate InsertedEarlier(s: Box, a: seq<Step>, b: seq<Step>, u: Box, r: Id, x: Id) {
    && Reachable(s) && r in s.rows
    && Run(s, a) && s.now < After(s, a).now && x !in After(s, a).rows
    && Run(After(s, a), b) && After(After(s, a), b) == u && x in u.rows
  }

  lemma EarlierIsOlder(s: Box, a: seq<Step>, b: seq<Step>, u: Box, r: Id, x: Id)
    requires InsertedEarlier(s, a, b, u, r, x)
    ensures r in u.rows && u.rows[r].createdAt < u.rows[x].createdAt
  {
    var steps :| Run(EMPTY, steps) && After(EMPTY, steps) == s;
    RunGivesBirth(EMPTY, steps, r);
    RunKeepsBirth(s, a, r);
    RunKeepsBirth(After(s, a), b, r);
    RunGivesBirth(After(s, a), b, x);
  }

  // A claim that takes a row takes every row that was inserted earlier and can be claimed.
  lemma EarlierInsertsGoFirst(s: Box, a: seq<Step>, b: seq<Step>, u: Box, r: Id, x: Id, w: Id, limit: nat, ids: set<Id>)
    requires InsertedEarlier(s, a, b, u, r, x)
    requires Enabled(u, Lock(w, limit, ids)) && x in ids && r in ClaimableNow(u)
    ensures r in ids
  {
    EarlierIsOlder(s, a, b, u, r, x);
  }

  // Within a batch that goes by age, the row inserted earlier comes earlier.
  lemma EarlierInsertsLeadTheBatch(s: Box, a: seq<Step>, b: seq<Step>, u: Box, order: seq<Id>, i: nat, j: nat)
    requires i < |order| && j < |order| && InsertedEarlier(s, a, b, u, order[i], order[j])
    requires forall k :: 0 <= k < |order| ==> order[k] in u.rows
    requires forall k, l :: 0 <= k < l < |order| ==> u.rows[order[k]].createdAt <= u.rows[order[l]].createdAt
    ensures i < j
  {
    EarlierIsOlder(s, a, b, u, order[i], order[j]);
  }

  // A claim statement takes as many rows as it may of those that can be claimed, and leaves none that is older than one it
  // takes; any such choice is possible.
  lemma ClaimTakesTheOldest(s: Box, w: Id, limit: nat, ids: set<Id>)
    ensures Enabled(s, Lock(w, limit, ids)) <==>
            && WorkerOf(s, w).Idle? && ids <= ClaimableNow(s) && |ids| == Min(limit, |ClaimableNow(s)|)
            && forall r, t :: r in ClaimableNow(s) - ids && t in ids ==> s.rows[t].createdAt <= s.rows[r].createdAt
  {
    if Enabled(s, Lock(w, limit, ids)) {
      assert ids <= ClaimableNow(s);
      SubsetSize(ids, ClaimableNow(s));
      assert |ids| < limit ==> ids == ClaimableNow(s);
    }
    if ids <= ClaimableNow(s) && |ids| == Min(limit, |ClaimableNow(s)|) {
      SubsetSize(ids, ClaimableNow(s));
      forall r | r in s.rows && r !in ids && r !in Locked(s) && Claimable(s.rows[r], s.now, CLAIM_TIMEOUT, MAX_ATTEMPTS)
        ensures r in ClaimableNow(s) - ids {}
    }
  }

  lemma SubsetSize(part: set<Id>, whole: set<Id>)
    requires part <= whole
    ensures |part| <= |whole| && (|part| == |whole| ==> part == whole)
  {
    if r :| r in whole && r !in part { SmallerThan(part, whole, r); } else { assert part == whole; }
  }

  /******* Failures *******/

  // At any moment a worker or a direct publisher can disappear, its send can be rejected, or be stored without an
  // acknowledgement, and its statement can be lost; nothing then holds a lock.
  lemma AnythingCanFail(s: Box, w: Id, t: Id)
    ensures Enabled(s, Crash(w)) && Apply(s, Crash(w)).rows == s.rows && forall r :: !Holds(Apply(s, Crash(w)), w, r)
    ensures WorkerOf(s, w).Claiming? ==>
              Enabled(s, Abort(w)) && Apply(s, Abort(w)).rows == s.rows && WorkerOf(Apply(s, Abort(w)), w).Idle?
    ensures AtHead(s, w, Publishing) ==> forall ack :: Enabled(s, Publish(w, ack))
    ensures AtHead(s, w, Marking) ==> Enabled(s, Mark(w, Lost))
    ensures AtHead(s, w, Failing) ==> Enabled(s, Fail(w, Lost))
    ensures AtHead(s, w, Marking) && Head(s, w).id !in Locked(s) ==> forall call :: Enabled(s, Mark(w, call))
    ensures AtHead(s, w, Failing) && Head(s, w).id !in Locked(s) ==> forall call :: Enabled(s, Fail(w, call))
    ensures t in s.direct ==> Enabled(s, DirectCrash(t)) && Apply(s, DirectCrash(t)).rows == s.rows
    ensures t in s.direct && !s.direct[t].acked ==> forall ack :: Enabled(s, DirectPublish(t, ack))
    ensures t in s.direct && s.direct[t].acked ==> Enabled(s, DirectMark(t, Lost))
    ensures t in s.direct && s.direct[t].acked && s.direct[t].row !in Locked(s) ==>
              forall call :: Enabled(s, DirectMark(t, call))
  {
  }

  // A worker that has crashed never acts again.
  lemma {:induction false} CrashIsForGood(s: Box, steps: seq<Step>, w: Id)
    requires Run(s, steps) && WorkerOf(s, w).Dead?
    ensures WorkerOf(After(s, steps), w).Dead? && forall step :: step in steps && ActsFor(step, w) ==> step.Crash?
    decreases steps
  {
    if steps != [] {
      var next := Apply(s, steps[0]);
      if !ActsFor(steps[0], w) { OthersWait(s, steps[0], w); }
      CrashIsForGood(next, steps[1..], w);
      assert forall step :: step in steps ==> step == steps[0] || step in steps[1..];
    }
  }

  predicate ActsForTask(step: Step, t: Id) {
    || (step.DirectPublish? && step.direct == t) || (step.DirectMark? && step.direct == t)
    || (step.DirectCrash? && step.direct == t)
  }

  // A direct publisher whose send was not acknowledged, whose mark has returned or thrown, or that has crashed, takes no
  // further step in any run, unless a new one starts under its name.
  lemma {:induction false} PublisherEndsForGood(s: Box, step: Step, steps: seq<Step>, t: Id)
    requires Enabled(s, step) && ActsForTask(step, t) && !(step.DirectPublish? && step.ack.Acked?)
    requires Run(Apply(s, step), steps) && forall x :: x in steps && x.Insert? && x.task.Some? ==> x.task.value.0 != t
    ensures forall x :: x in steps ==> !ActsForTask(x, t)
  {
    NoPublisherNoStep(Apply(s, step), steps, t);
  }

  lemma {:induction false} NoPublisherNoStep(s: Box, steps: seq<Step>, t: Id)
    requires Run(s, steps) && t !in s.direct
    requires forall x :: x in steps && x.Insert? && x.task.Some? ==> x.task.value.0 != t
    ensures forall x :: x in steps ==> !ActsForTask(x, t)
    decreases steps
  {
    if steps != [] {
      assert steps[0] in steps && forall x :: x in steps[1..] ==> x in steps;
      StepMovesDirect(s, steps[0], t);
      assert t !in Apply(s, steps[0]).direct;
      NoPublisherNoStep(Apply(s, steps[0]), steps[1..], t);
      assert forall x :: x in steps ==> x == steps[0] || x in steps[1..];
    }
  }
}
