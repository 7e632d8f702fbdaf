/**
 Cache-aside reads of one event, with every reader and writer interleaved at each await. A reader asks the cache, on a
 miss loads the row, stores it with a time to live, and answers; a writer commits and then deletes the cached copy. Any
 cache call may fail, be cut off with its command still under way, or never come because the process died.
 */
module EventCache {
  import opened Common
  import opened Inventory

  // The committed rows, oldest first; None while the event does not exist.
  datatype Version = Version(row: Option<Event>, since: Time)

  datatype Entry = Entry(event: Event, version: nat, readAt: Time, storedAt: Time)

  datatype Reader =
    | Missed(asked: Time)
    | Loaded(asked: Time, event: Event, version: nat, readAt: Time)
    // The answer is out, but the SET of a call that was cut off can still arrive.
    | CutOff(event: Event, version: nat, readAt: Time)

  // `stored` is the time of the cache write behind a hit.
  datatype Answer = Answer(event: Event, asked: Time, at: Time, version: nat, readAt: Time, stored: Option<Time>)

  datatype State = State(
    ttl: Time,
    now: Time,
    history: seq<Version>,
    cache: Option<Entry>,
    readers: map<Id, Reader>,
    // Writers whose commit is done and whose DEL is still to come.
    writers: set<Id>,
    answers: seq<Answer>)

  datatype Step =
    | Get(r: Id, reached: bool)
    | Load(r: Id)
    | Store(r: Id)
    | StoreFails(r: Id, arrives: bool)
    | Arrive(r: Id)
    | ReaderDies(r: Id)
    | Create(event: Event)
    | Commit(w: Id, row: Option<Event>)
    | Delete(w: Id)
    | DeleteFails(w: Id)
    | Tick(span: Time)

  function Start(ttl: Time): State {
    State(ttl, 0, [Version(None, 0)], None, map[], {}, [])
  }

  function Current(s: State): Option<Event>
    requires s.history != []
  {
    s.history[|s.history| - 1].row
  }

  predicate Live(s: State) {
    s.cache.Some? && s.now < s.cache.value.storedAt + s.ttl
  }

  // SET with a time to live that is not positive is refused.
  function Cached(s: State, event: Event, version: nat, readAt: Time): Option<Entry> {
    if s.ttl > 0 then Some(Entry(event, version, readAt, s.now)) else s.cache
  }

  predicate IsLoaded(s: State, r: Id) {
    r in s.readers && s.readers[r].Loaded?
  }

  predicate Enabled(s: State, step: Step) {
    s.history != [] &&
    match step
    case Get(r, _) => r !in s.readers
    case Load(r) => r in s.readers && s.readers[r].Missed?
    case Store(r) => IsLoaded(s, r)
    case StoreFails(r, _) => IsLoaded(s, r)
    case Arrive(r) => r in s.readers && s.readers[r].CutOff?
    case ReaderDies(r) => r in s.readers
    case Create(_) => Current(s).None?
    case Commit(w, _) => w !in s.writers && Current(s).Some?
    case Delete(w) => w in s.writers
    case DeleteFails(w) => w in s.writers
    case Tick(span) => 0 <= span
  }

  function Fresh(reader: Reader, now: Time): Answer
    requires reader.Loaded?
  {
    Answer(reader.event, reader.asked, now, reader.version, reader.readAt, None)
  }

  function Hit(e: Entry, now: Time): Answer {
    Answer(e.event, now, now, e.version, e.readAt, Some(e.storedAt))
  }

  function Apply(s: State, step: Step): State
    requires Enabled(s, step)
  {
    match step
    case Get(r, reached) =>
      if reached && Live(s) then s.(answers := s.answers + [Hit(s.cache.value, s.now)])
      else s.(readers := s.readers[r := Missed(s.now)])
    case Load(r) =>
      // A missing row is answered with EVENT_NOT_FOUND, and nothing is cached.
      if Current(s).None? then s.(readers := s.readers - {r})
      else s.(readers := s.readers[r := Loaded(s.readers[r].asked, Current(s).value, |s.history| - 1, s.now)])
    case Store(r) =>
      var reader := s.readers[r];
      s.(cache := Cached(s, reader.event, reader.version, reader.readAt),
         readers := s.readers - {r}, answers := s.answers + [Fresh(reader, s.now)])
    case StoreFails(r, arrives) =>
      var reader := s.readers[r];
      s.(readers := if arrives then s.readers[r := CutOff(reader.event, reader.version, reader.readAt)] else s.readers - {r},
         answers := s.answers + [Fresh(reader, s.now)])
    case Arrive(r) =>
      var reader := s.readers[r];
      s.(cache := Cached(s, reader.event, reader.version, reader.readAt), readers := s.readers - {r})
    case ReaderDies(r) => s.(readers := s.readers - {r})
    case Create(event) => s.(history := s.history + [Version(Some(event), s.now)])
    case Commit(w, row) => s.(history := s.history + [Version(row, s.now)], writers := s.writers + {w})
    case Delete(w) => s.(cache := None, writers := s.writers - {w})
    case DeleteFails(w) => s.(writers := s.writers - {w})
    case Tick(span) => s.(now := s.now + span)
  }

  predicate Run(s: State, steps: seq<Step>)
    decreases steps
  {
    steps == [] || (Enabled(s, steps[0]) && Run(Apply(s, steps[0]), steps[1..]))
  }

  function After(s: State, steps: seq<Step>): State
    requires Run(s, steps)
    decreases steps
  {
    if steps == [] then s else After(Apply(s, steps[0]), steps[1..])
  }

  lemma {:induction false} RunSnoc(s: State, steps: seq<Step>, last: Step)
    requires Run(s, steps) && Enabled(After(s, steps), last)
    ensures Run(s, steps + [last]) && After(s, steps + [last]) == Apply(After(s, steps), last)
    decreases steps
  {
    if steps == [] {
      assert [last][1..] == [];
    } else {
      assert (steps + [last])[1..] == steps[1..] + [last];
      RunSnoc(Apply(s, steps[0]), steps[1..], last);
    }
  }

  /******* What an answer is worth *******/

  // The event was the committed row, in that version, at time t.
  predicate WasCommitted(history: seq<Version>, event: Event, version: nat, t: Time) {
    && version < |history| && history[version].row == Some(event) && history[version].since <= t
    && (version + 1 < |history| ==> t <= history[version + 1].since)
  }

  // An answer is a row read during the call, or one read longer ago by less than the time to live plus the time its
  // reader took from the read to the cache write.
  predicate Truthful(history: seq<Version>, ttl: Time, a: Answer) {
    && WasCommitted(history, a.event, a.version, a.readAt)
    && a.readAt <= a.at
    && match a.stored
       case None => a.asked <= a.readAt
       case Some(stored) => a.readAt <= stored <= a.at && a.at - a.readAt < ttl + (stored - a.readAt)
  }

  predicate HistoryInOrder(history: seq<Version>, now: Time) {
    history != [] && forall i :: 0 <= i < |history| ==> history[i].since <= now
  }

  predicate ReaderOk(s: State, reader: Reader) {
    match reader
    case Missed(asked) => asked <= s.now
    case Loaded(asked, event, version, readAt) =>
      asked <= readAt <= s.now && WasCommitted(s.history, event, version, readAt)
    case CutOff(event, version, readAt) => readAt <= s.now && WasCommitted(s.history, event, version, readAt)
  }

  predicate Inv(s: State) {
    && HistoryInOrder(s.history, s.now)
    && (s.cache.Some? ==>
          var e := s.cache.value;
          WasCommitted(s.history, e.event, e.version, e.readAt) && e.readAt <= e.storedAt <= s.now)
    && (forall r :: r in s.readers ==> ReaderOk(s, s.readers[r]))
    && (forall i :: 0 <= i < |s.answers| ==> Truthful(s.history, s.ttl, s.answers[i]) && s.answers[i].at <= s.now)
  }

  lemma NewVersionKeepsInv(s: State, row: Option<Event>)
    requires Inv(s)
    ensures Inv(s.(history := s.history + [Version(row, s.now)]))
  {
  }

  lemma GetKeepsInv(s: State, r: Id, reached: bool)
    requires Inv(s) && Enabled(s, Get(r, reached))
    ensures Inv(Apply(s, Get(r, reached)))
  {
  }

  lemma LoadKeepsInv(s: State, r: Id)
    requires Inv(s) && Enabled(s, Load(r))
    ensures Inv(Apply(s, Load(r)))
  {
  }

  lemma StoreKeepsInv(s: State, r: Id)
    requires Inv(s) && Enabled(s, Store(r))
    ensures Inv(Apply(s, Store(r)))
  {
    assert ReaderOk(s, s.readers[r]);
  }

  lemma StoreFailsKeepsInv(s: State, r: Id, arrives: bool)
    requires Inv(s) && Enabled(s, StoreFails(r, arrives))
    ensures Inv(Apply(s, StoreFails(r, arrives)))
  {
    assert ReaderOk(s, s.readers[r]);
  }

  lemma ArriveKeepsInv(s: State, r: Id)
    requires Inv(s) && Enabled(s, Arrive(r))
    ensures Inv(Apply(s, Arrive(r)))
  {
    assert ReaderOk(s, s.readers[r]);
  }

  lemma StepKeepsInv(s: State, step: Step)
    requires Inv(s) && Enabled(s, step)
    ensures Inv(Apply(s, step))
  {
    match step
    case Get(r, reached) => GetKeepsInv(s, r, reached);
    case Load(r) => LoadKeepsInv(s, r);
    case Store(r) => StoreKeepsInv(s, r);
    case StoreFails(r, arrives) => StoreFailsKeepsInv(s, r, arrives);
    case Arrive(r) => ArriveKeepsInv(s, r);
    case Create(event) => NewVersionKeepsInv(s, Some(event));
    case Commit(w, row) => NewVersionKeepsInv(s, row);
    case _ =>
  }

  lemma {:induction false} RunKeepsInv(s: State, steps: seq<Step>)
    requires Inv(s) && Run(s, steps)
    ensures Inv(After(s, steps))
    decreases steps
  {
    if steps != [] {
      StepKeepsInv(s, steps[0]);
      RunKeepsInv(Apply(s, steps[0]), steps[1..]);
    }
  }

  lemma {:induction false} RunKeepsTtl(s: State, steps: seq<Step>)
    requires Run(s, steps)
    ensures After(s, steps).ttl == s.ttl
    decreases steps
  {
    if steps != [] { RunKeepsTtl(Apply(s, steps[0]), steps[1..]); }
  }

  // Bounded staleness, in any interleaving and with any cache failures.
  lemma AnswersAreTruthful(ttl: Time, steps: seq<Step>)
    requires Run(Start(ttl), steps)
    ensures var s := After(Start(ttl), steps);
            s.ttl == ttl && forall i :: 0 <= i < |s.answers| ==> Truthful(s.history, ttl, s.answers[i])
  {
    RunKeepsInv(Start(ttl), steps);
    RunKeepsTtl(Start(ttl), steps);
  }

  /******* When a hit is current *******/

  // No read overlaps a write: nothing is read from the cache or loaded between a commit and its DEL, no commit comes
  // while a loaded row is still to be stored, and every DEL gets through.
  predicate CalmStep(s: State, step: Step) {
    match step
    case Get(_, reached) => reached ==> s.writers == {}
    case Load(_) => s.writers == {}
    case Commit(_, _) => forall r :: r in s.readers ==> s.readers[r].Missed?
    case DeleteFails(_) => false
    case _ => true
  }

  predicate CalmRun(s: State, steps: seq<Step>)
    requires Run(s, steps)
    decreases steps
  {
    steps == [] || (CalmStep(s, steps[0]) && CalmRun(Apply(s, steps[0]), steps[1..]))
  }

  predicate Calm(s: State) {
    && Inv(s)
    && (s.cache.Some? && s.writers == {} ==> s.cache.value.version == |s.history| - 1)
    && (forall r :: r in s.readers && !s.readers[r].Missed? ==>
          s.readers[r].version == |s.history| - 1 && s.writers == {})
  }

  lemma CalmStepKeepsCalm(s: State, step: Step)
    requires Calm(s) && Enabled(s, step) && CalmStep(s, step)
    ensures Calm(Apply(s, step))
  {
    StepKeepsInv(s, step);
  }

  lemma {:induction false} CalmRunKeepsCalm(s: State, steps: seq<Step>)
    requires Calm(s) && Run(s, steps) && CalmRun(s, steps)
    ensures Calm(After(s, steps))
    decreases steps
  {
    if steps != [] {
      CalmStepKeepsCalm(s, steps[0]);
      CalmRunKeepsCalm(Apply(s, steps[0]), steps[1..]);
    }
  }

  // Then a hit is the current row.
  lemma CalmHitIsCurrent(ttl: Time, steps: seq<Step>)
    requires Run(Start(ttl), steps) && CalmRun(Start(ttl), steps)
    ensures var s := After(Start(ttl), steps);
            s.history != [] && (Live(s) && s.writers == {} ==> Current(s) == Some(s.cache.value.event))
  {
    CalmRunKeepsCalm(Start(ttl), steps);
  }

  /******* Exactly when a cached copy is current *******/

  predicate Writes(step: Step) {
    step.Create? || step.Commit?
  }

  function WritesIn(steps: seq<Step>): nat {
    if steps == [] then 0 else WritesIn(steps[..|steps| - 1]) + (if Writes(steps[|steps| - 1]) then 1 else 0)
  }

  // Where in the run reader r last loaded the row.
  function LoadOf(steps: seq<Step>, r: Id): Option<nat> {
    if steps == [] then None
    else
      var n := |steps| - 1;
      if steps[n] == Load(r) then Some(n) else LoadOf(steps[..n], r)
  }

  // Where in the run the row was loaded that the cache holds, if it holds one: the load behind the last SET.
  function LoadBehind(steps: seq<Step>): Option<nat> {
    if steps == [] then None
    else
      var n := |steps| - 1;
      match steps[n]
      case Store(r) => LoadOf(steps[..n], r)
      case Arrive(r) => LoadOf(steps[..n], r)
      case Delete(_) => None
      case _ => LoadBehind(steps[..n])
  }

  lemma {:induction false} RunPrefix(s: State, steps: seq<Step>)
    requires Run(s, steps) && steps != []
    ensures var n := |steps| - 1;
            && Run(s, steps[..n]) && Enabled(After(s, steps[..n]), steps[n])
            && After(s, steps) == Apply(After(s, steps[..n]), steps[n])
    decreases steps
  {
    var n := |steps| - 1;
    if n > 0 {
      assert steps[..n][1..] == steps[1..][..n - 1];
      RunPrefix(Apply(s, steps[0]), steps[1..]);
    } else {
      assert steps[1..] == [] && steps[..n] == [];
    }
  }

  // The version read at position p of the run is the number of writes before it.
  ghost predicate ReadAt(steps: seq<Step>, p: Option<nat>, version: nat) {
    p.Some? && p.value < |steps| && version == WritesIn(steps[..p.value])
  }

  lemma ReadAtLater(steps: seq<Step>, p: Option<nat>, version: nat, n: nat)
    requires n <= |steps| && ReadAt(steps[..n], p, version)
    ensures ReadAt(steps, p, version)
  {
    assert steps[..n][..p.value] == steps[..p.value];
  }

  // What the run tells of a state: how many versions there are, and where each copy was read.
  ghost predicate Accounted(s: State, steps: seq<Step>) {
    && |s.history| == 1 + WritesIn(steps)
    && (forall r :: r in s.readers && !s.readers[r].Missed? ==> ReadAt(steps, LoadOf(steps, r), s.readers[r].version))
    && (s.cache.Some? && s.ttl > 0 ==> ReadAt(steps, LoadBehind(steps), s.cache.value.version))
  }

  lemma ReadersAccounted(s: State, steps: seq<Step>, last: Step, r: Id)
    requires Accounted(s, steps) && Enabled(s, last)
    requires r in Apply(s, last).readers && !Apply(s, last).readers[r].Missed?
    ensures ReadAt(steps + [last], LoadOf(steps + [last], r), Apply(s, last).readers[r].version)
  {
    var all, n := steps + [last], |steps|;
    assert all[..n] == steps;
    if last == Load(r) {
      assert ReadAt(all, Some(n), |s.history| - 1);
    } else {
      assert r in s.readers && !s.readers[r].Missed? && Apply(s, last).readers[r].version == s.readers[r].version;
      ReadAtLater(all, LoadOf(steps, r), s.readers[r].version, n);
    }
  }

  lemma CacheAccounted(s: State, steps: seq<Step>, last: Step)
    requires Accounted(s, steps) && Enabled(s, last) && s.ttl > 0 && Apply(s, last).cache.Some?
    ensures ReadAt(steps + [last], LoadBehind(steps + [last]), Apply(s, last).cache.value.version)
  {
    var all, n := steps + [last], |steps|;
    assert all[..n] == steps;
    match last
    case Store(r) => ReadAtLater(all, LoadOf(steps, r), s.readers[r].version, n);
    case Arrive(r) => ReadAtLater(all, LoadOf(steps, r), s.readers[r].version, n);
    case Delete(_) => assert false;
    case _ => ReadAtLater(all, LoadBehind(steps), s.cache.value.version, n);
  }

  lemma {:induction false} RunIsAccounted(ttl: Time, steps: seq<Step>)
    requires Run(Start(ttl), steps)
    ensures Accounted(After(Start(ttl), steps), steps) && After(Start(ttl), steps).ttl == ttl
    decreases steps
  {
    if steps != [] {
      var n := |steps| - 1;
      RunPrefix(Start(ttl), steps);
      var s, last := After(Start(ttl), steps[..n]), steps[n];
      RunIsAccounted(ttl, steps[..n]);
      assert steps[..n] + [last] == steps;
      var s' := Apply(s, last);
      forall r | r in s'.readers && !s'.readers[r].Missed? ensures ReadAt(steps, LoadOf(steps, r), s'.readers[r].version) {
        ReadersAccounted(s, steps[..n], last, r);
      }
      if s'.cache.Some? && s'.ttl > 0 { CacheAccounted(s, steps[..n], last); }
    }
  }

  lemma {:induction false} NoWritesBetween(steps: seq<Step>, p: nat)
    requires p <= |steps|
    ensures WritesIn(steps[..p]) <= WritesIn(steps)
    ensures WritesIn(steps[..p]) == WritesIn(steps) <==> forall i :: p <= i < |steps| ==> !Writes(steps[i])
    decreases |steps|
  {
    if p < |steps| {
      var n := |steps| - 1;
      assert steps[..n][..p] == steps[..p];
      NoWritesBetween(steps[..n], p);
    } else {
      assert steps[..p] == steps;
    }
  }

  // Of any run: the cached copy is the newest version exactly when no write follows the load behind the SET that put it
  // there, however reads and writes overlapped and whichever cache calls failed.
  lemma HitIsNewestExactly(ttl: Time, steps: seq<Step>)
    requires Run(Start(ttl), steps) && Live(After(Start(ttl), steps))
    ensures var s := After(Start(ttl), steps);
            && LoadBehind(steps).Some? && LoadBehind(steps).value < |steps|
            && (s.cache.value.version == |s.history| - 1
                <==> forall i :: LoadBehind(steps).value <= i < |steps| ==> !Writes(steps[i]))
            && (s.cache.value.version == |s.history| - 1 ==> Current(s) == Some(s.cache.value.event))
  {
    RunIsAccounted(ttl, steps);
    RunKeepsInv(Start(ttl), steps);
    NoWritesBetween(steps, LoadBehind(steps).value);
  }

  // Any call to the cache can fail, with or without its command on the way, and any reader can disappear.
  lemma AnyCallCanFail(s: State, r: Id, w: Id)
    requires s.history != []
    ensures r !in s.readers ==>
              Enabled(s, Get(r, false)) && Apply(s, Get(r, false)) == s.(readers := s.readers[r := Missed(s.now)])
    ensures r in s.readers ==> Enabled(s, ReaderDies(r)) && Apply(s, ReaderDies(r)) == s.(readers := s.readers - {r})
    ensures IsLoaded(s, r) ==>
              && Enabled(s, StoreFails(r, false)) && Apply(s, StoreFails(r, false)).cache == s.cache
              && Enabled(s, StoreFails(r, true))
              && Enabled(Apply(s, StoreFails(r, true)), Arrive(r))
              && Apply(Apply(s, StoreFails(r, true)), Arrive(r)) == Apply(s, Store(r))
    ensures w in s.writers ==>
              Enabled(s, DeleteFails(w)) && Apply(s, DeleteFails(w)) == s.(writers := s.writers - {w})
  {
    if IsLoaded(s, r) {
      assert s.readers[r := CutOff(s.readers[r].event, s.readers[r].version, s.readers[r].readAt)] - {r} == s.readers - {r};
    }
  }

  // Time passes, and no copy outlives its time to live.
  lemma CopiesExpire(s: State, span: Time)
    requires Inv(s) && s.ttl <= span && 0 <= span
    ensures Enabled(s, Tick(span)) && Apply(s, Tick(span)) == s.(now := s.now + span)
    ensures !Live(Apply(s, Tick(span)))
  {
  }

  /******* Neither condition can go *******/

  lemma RunCons(s: State, step: Step, rest: seq<Step>)
    requires Enabled(s, step) && Run(Apply(s, step), rest)
    ensures Run(s, [step] + rest) && After(s, [step] + rest) == After(Apply(s, step), rest)
  {
  }

  lemma RunTwo(s: State, a: Step, b: Step)
    requires Enabled(s, a) && Enabled(Apply(s, a), b)
    ensures Run(s, [a, b]) && After(s, [a, b]) == Apply(Apply(s, a), b)
  {
    RunCons(Apply(s, a), b, []);
    RunCons(s, a, [b]);
    assert [b] + [] == [b] && [a] + [b] == [a, b];
  }

  const OLD: Event := Event(10, 10)
  const NEW: Event := Event(10, 9)

  // The event exists and a first reader has asked, missed and loaded it.
  const LOADING: seq<Step> := [Create(OLD), Get(1, true)] + [Load(1)]

  lemma AfterLoading(ttl: Time)
    ensures Run(Start(ttl), LOADING)
    ensures After(Start(ttl), LOADING) == Start(ttl).(
              history := [Version(None, 0), Version(Some(OLD), 0)], readers := map[1 := Loaded(0, OLD, 1, 0)])
  {
    RunTwo(Start(ttl), Create(OLD), Get(1, true));
    RunSnoc(Start(ttl), [Create(OLD), Get(1, true)], Load(1));
  }

  lemma {:induction false} RunJoin(s: State, a: seq<Step>, b: seq<Step>)
    requires Run(s, a) && Run(After(s, a), b)
    ensures Run(s, a + b) && After(s, a + b) == After(After(s, a), b)
    decreases a
  {
    if a == [] {
      assert a + b == b;
    } else {
      assert (a + b)[1..] == a[1..] + b;
      RunJoin(Apply(s, a[0]), a[1..], b);
    }
  }

  // A SET that comes after the commit and the DEL of another process leaves the old row to be hit.
  lemma OverlapServesStale(ttl: Time)
    requires 0 < ttl
    ensures var steps := LOADING + ([Commit(7, Some(NEW)), Delete(7)] + [Store(1)]);
            && Run(Start(ttl), steps)
            && var s := After(Start(ttl), steps);
            && Live(s) && s.writers == {} && s.history != []
            && Current(s) == Some(NEW) && s.cache.value.event == OLD
  {
    AfterLoading(ttl);
    var s := After(Start(ttl), LOADING);
    RunTwo(s, Commit(7, Some(NEW)), Delete(7));
    RunSnoc(s, [Commit(7, Some(NEW)), Delete(7)], Store(1));
    RunJoin(Start(ttl), LOADING, [Commit(7, Some(NEW)), Delete(7)] + [Store(1)]);
  }

  // So does a DEL that fails, though no read overlaps the write.
  lemma LostDeleteServesStale(ttl: Time)
    requires 0 < ttl
    ensures var steps := LOADING + ([Store(1), Commit(7, Some(NEW))] + [DeleteFails(7)]);
            && Run(Start(ttl), steps)
            && var s := After(Start(ttl), steps);
            && Live(s) && s.writers == {} && s.history != []
            && Current(s) == Some(NEW) && s.cache.value.event == OLD
  {
    AfterLoading(ttl);
    var s := After(Start(ttl), LOADING);
    RunTwo(s, Store(1), Commit(7, Some(NEW)));
    RunSnoc(s, [Store(1), Commit(7, Some(NEW))], DeleteFails(7));
    RunJoin(Start(ttl), LOADING, [Store(1), Commit(7, Some(NEW))] + [DeleteFails(7)]);
  }
}
