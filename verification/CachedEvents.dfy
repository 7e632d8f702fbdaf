/**
 The event reads and writes of event-service over its repository and a fallible cache, for one event. Each method lets
 other readers and writers in at its awaits, and is proved to be a run of the interleaved protocol of module EventCache.
 */
module CachedEvents {
  import opened Common
  import opened Inventory
  import opened EventCache
  import opened Repositories

  predicate ActsForReader(step: Step, r: Id) {
    match step
    case Get(x, _) => x == r
    case Load(x) => x == r
    case Store(x) => x == r
    case StoreFails(x, _) => x == r
    case Arrive(x) => x == r
    case ReaderDies(x) => x == r
    case _ => false
  }

  predicate ActsForWriter(step: Step, w: Id) {
    match step
    case Commit(x, _) => x == w
    case Delete(x) => x == w
    case DeleteFails(x) => x == w
    case _ => false
  }

  // What steps of others leave to reader r and writer w.
  ghost predicate Waits(s: State, t: State, r: Id, w: Id) {
    && (r in s.readers <==> r in t.readers) && (r in s.readers ==> s.readers[r] == t.readers[r])
    && (w in s.writers <==> w in t.writers)
    && s.now <= t.now && s.history <= t.history && s.ttl == t.ttl
  }

  lemma OthersWait(s: State, step: Step, r: Id, w: Id)
    requires Enabled(s, step) && !ActsForReader(step, r) && !ActsForWriter(step, w)
    ensures Waits(s, Apply(s, step), r, w)
  {
  }

  function Written(step: Step): Option<Event>
    requires Writes(step)
  {
    if step.Create? then Some(step.event) else step.row
  }

  lemma HistoryMoves(s: State, step: Step)
    requires Enabled(s, step)
    ensures Apply(s, step).history == if Writes(step) then s.history + [Version(Written(step), s.now)] else s.history
  {
  }

  // How a cache call ends; the command of a call that is cut off can arrive later.
  datatype CacheCall = Answered | Failed | CutShort

  // How the SET of reader r ends.
  function LastStep(r: Id, put: CacheCall): Step {
    if put.Answered? then Store(r) else StoreFails(r, put.CutShort?)
  }

  // A run from s to t that keeps what is known of answers.
  ghost predicate Traces(s: State, trace: seq<Step>, t: State) {
    Run(s, trace) && After(s, trace) == t && Inv(t)
  }

  lemma TracesStep(s: State, trace: seq<Step>, t: State, step: Step)
    requires Traces(s, trace, t) && Enabled(t, step)
    ensures Traces(s, trace + [step], Apply(t, step))
  {
    RunSnoc(s, trace, step);
    StepKeepsInv(t, step);
  }

  lemma TracesJoin(s: State, a: seq<Step>, t: State, b: seq<Step>, u: State)
    requires Traces(s, a, t) && Traces(t, b, u)
    ensures Traces(s, a + b, u)
  {
    RunJoin(s, a, b);
  }

  class EventsService {
    const repository: EventRepository
    const id: Id
    const cacheTtl: Time
    var now: Time
    var history: seq<Version>
    var cache: Option<Entry>
    var readers: map<Id, Reader>
    var writers: set<Id>
    var answers: seq<EventCache.Answer>

    constructor (repository: EventRepository, id: Id, cacheTtl: Time)
      requires id !in repository.events
      ensures this.repository == repository && this.id == id && View() == Start(cacheTtl) && Valid()
    {
      this.repository, this.id, this.cacheTtl := repository, id, cacheTtl;
      now, history, cache, readers, writers, answers := 0, [Version(None, 0)], None, map[], {}, [];
    }

    function View(): State
      reads this
    {
      State(cacheTtl, now, history, cache, readers, writers, answers)
    }

    // The newest version is the row of the repository.
    ghost predicate Valid()
      reads this, repository
    {
      Inv(View()) && Current(View()) == RowOf(repository.events, id)
    }

    method TakeStep(step: Step)
      requires Valid() && Enabled(View(), step)
      modifies this, repository
      ensures Valid() && View() == Apply(old(View()), step)
    {
      StepKeepsInv(View(), step);
      var s := Apply(View(), step);
      now, history, cache, readers, writers, answers := s.now, s.history, s.cache, s.readers, s.writers, s.answers;
      HistoryMoves(old(View()), step);
      if Writes(step) {
        var row := Written(step);
        repository.events := if row.Some? then repository.events[id := row.value] else repository.events - {id};
      }
    }

    // Steps that are not possible, or not for others to take, are skipped.
    method TakeTurns(others: seq<Step>, r: Id, w: Id) returns (ghost trace: seq<Step>)
      requires Valid()
      modifies this, repository
      ensures Valid() && Traces(old(View()), trace, View())
      ensures Waits(old(View()), View(), r, w)
    {
      trace := [];
      for i := 0 to |others|
        invariant Valid() && Traces(old(View()), trace, View())
        invariant Waits(old(View()), View(), r, w)
      {
        var step := others[i];
        if Enabled(View(), step) && !ActsForReader(step, r) && !ActsForWriter(step, w) {
          TracesStep(old(View()), trace, View(), step);
          OthersWait(View(), step, r, w);
          trace := trace + [step];
          TakeStep(step);
        }
      }
    }

    // getCached: an error reads as a miss.
    method GetCached(r: Id, get: CacheCall) returns (cached: Option<Event>)
      requires Valid() && r !in readers
      modifies this, repository
      ensures Valid() && View() == Apply(old(View()), Get(r, get.Answered?))
      ensures cached == if get.Answered? && old(Live(View())) then Some(old(cache).value.event) else None
    {
      StepKeepsInv(View(), Get(r, get.Answered?));
      if get.Answered? && cache.Some? && now < cache.value.storedAt + cacheTtl {
        cached := Some(cache.value.event);
        answers := answers + [Hit(cache.value, now)];
      } else {
        cached := None;
        readers := readers[r := Missed(now)];
      }
    }

    // setCached and the return that follows: the row is answered whether or not the cache takes it.
    method SetCached(r: Id, event: Event, put: CacheCall)
      requires Valid() && IsLoaded(View(), r) && readers[r].event == event
      modifies this, repository
      ensures View() == Apply(old(View()), LastStep(r, put))
      ensures Valid()
    {
      var reader := readers[r];
      StepKeepsInv(View(), LastStep(r, put));
      answers := answers + [Fresh(reader, now)];
      if put.Answered? && cacheTtl > 0 {
        cache := Some(Entry(event, reader.version, reader.readAt, now));
      }
      if put.CutShort? {
        readers := readers[r := CutOff(event, reader.version, reader.readAt)];
      } else {
        readers := readers - {r};
      }
    }

    // findById after a miss, once others have had their turns.
    method FindById(r: Id, before: seq<Step>) returns (row: Option<Event>, ghost trace: seq<Step>)
      requires Valid() && r in readers && readers[r].Missed?
      modifies this, repository
      ensures Valid() && Traces(old(View()), trace, View())
      ensures row == Current(View()) && old(now) <= now
      ensures row.None? ==> r !in readers
      ensures row.Some? ==>
                r in readers && readers[r] == Loaded(old(readers[r].asked), row.value, |history| - 1, now)
    {
      ghost var s0 := View();
      trace := TakeTurns(before, r, 0);
      TracesStep(s0, trace, View(), Load(r));
      trace := trace + [Load(r)];
      row := repository.FindById(id);
      if row.None? {
        readers := readers - {r};
      } else {
        readers := readers[r := Loaded(readers[r].asked, row.value, |history| - 1, now)];
      }
    }

    // The rest of getEventById after the load.
    method Keep(r: Id, event: Event, put: CacheCall, before: seq<Step>) returns (ghost trace: seq<Step>)
      requires Valid() && IsLoaded(View(), r) && readers[r].event == event
      modifies this, repository
      ensures Valid() && Traces(old(View()), trace, View())
      ensures answers != [] && answers[|answers| - 1] == Fresh(old(readers[r]), now)
      ensures r in readers <==> put.CutShort?
      ensures trace != [] && trace[|trace| - 1] == LastStep(r, put)
      ensures put.Answered? && cacheTtl > 0 ==>
                cache == Some(Entry(event, old(readers[r]).version, old(readers[r]).readAt, now))
    {
      ghost var s0 := View();
      trace := TakeTurns(before, r, 0);
      ghost var last := LastStep(r, put);
      TracesStep(s0, trace, View(), last);
      trace := trace + [last];
      SetCached(r, event, put);
    }

    // getEventById, where None is EVENT_NOT_FOUND: whatever the cache and the others do, the answer is a committed row
    // within the staleness bound, and only a row that is gone goes unanswered. After a miss, what was read is in the cache if
    // the SET was answered.
    method GetEventById(r: Id, get: CacheCall, put: CacheCall, beforeLoad: seq<Step>, beforeSet: seq<Step>)
      returns (result: Option<Event>, ghost trace: seq<Step>)
      requires Valid() && r !in readers
      modifies this, repository
      ensures Valid() && Traces(old(View()), trace, View())
      ensures match result
              case None => Current(View()).None?
              case Some(event) =>
                && answers != []
                && var a := answers[|answers| - 1];
                && a.event == event && a.asked == old(now) && Truthful(history, cacheTtl, a)
      ensures get.Answered? && old(Live(View())) ==>
                result == Some(old(cache).value.event) && cache == old(cache) && history == old(history)
      ensures r in readers <==> result.Some? && !(get.Answered? && old(Live(View()))) && put.CutShort?
      ensures result.Some? && !(get.Answered? && old(Live(View()))) ==>
                && answers != [] && trace != [] && trace[|trace| - 1] == LastStep(r, put)
                && var a := answers[|answers| - 1];
                   a.at == now && a.stored == None
                   && (put.Answered? && cacheTtl > 0 ==> cache == Some(Entry(a.event, a.version, a.readAt, now)))
    {
      ghost var s0 := View();
      TracesStep(s0, [], s0, Get(r, get.Answered?));
      trace := [] + [Get(r, get.Answered?)];
      result := GetCached(r, get);
      if result.Some? { return; }
      ghost var s1 := View();
      ghost var more;
      result, more := FindById(r, beforeLoad);
      TracesJoin(s0, trace, s1, more, View());
      trace := trace + more;
      if result.Some? {
        ghost var s2 := View();
        more := Keep(r, result.value, put, beforeSet);
        TracesJoin(s0, trace, s2, more, View());
        trace := trace + more;
      }
    }

    // invalidateCached: an error leaves the copy to expire.
    method InvalidateCached(w: Id, del: CacheCall, before: seq<Step>) returns (ghost trace: seq<Step>)
      requires Valid() && w in writers
      modifies this, repository
      ensures Valid() && Traces(old(View()), trace, View())
      ensures old(history) <= history && (del.Answered? ==> cache == None)
      ensures w in writers <==> del.CutShort?
    {
      ghost var s0 := View();
      trace := TakeTurns(before, 0, w);
      if del.Answered? {
        TracesStep(s0, trace, View(), Delete(w));
        trace := trace + [Delete(w)];
        cache, writers := None, writers - {w};
      } else if del.Failed? {
        TracesStep(s0, trace, View(), DeleteFails(w));
        trace := trace + [DeleteFails(w)];
        writers := writers - {w};
      }
    }

    // The administrator's statement has committed: its version, then the invalidation.
    method Publish(w: Id, row: Option<Event>, del: CacheCall, before: seq<Step>) returns (ghost trace: seq<Step>)
      requires Inv(View()) && w !in writers && Current(View()).Some? && row == RowOf(repository.events, id)
      modifies this, repository
      ensures Valid() && Traces(old(View()), trace, View())
      ensures old(history) + [Version(row, old(now))] <= history && (del.Answered? ==> cache == None)
    {
      ghost var s0 := View();
      TracesStep(s0, [], s0, Commit(w, row));
      trace := [] + [Commit(w, row)];
      history, writers := history + [Version(row, now)], writers + {w};
      ghost var s1 := View();
      ghost var more := InvalidateCached(w, del, before);
      TracesJoin(s0, trace, s1, more, View());
      trace := trace + more;
    }

    // createEvent: there is nothing to invalidate.
    method CreateEvent(total: int) returns (result: AdminResult, ghost trace: seq<Step>)
      requires Valid()
      modifies this, repository
      ensures Valid() && Traces(old(View()), trace, View())
      ensures result.AdminDone? <==> old(Current(View())).None? && 0 < total
      ensures result.AdminViolation? <==> old(Current(View())).Some? || total <= 0
      ensures result.AdminDone? ==> history == old(history) + [Version(Some(Event(total, total)), old(now))]
      ensures cache == old(cache) && (!result.AdminDone? ==> View() == old(View()))
    {
      trace := [];
      result := repository.Create(id, total);
      if result.AdminDone? {
        TracesStep(View(), [], View(), Create(Event(total, total)));
        trace := [] + [Create(Event(total, total))];
        history := history + [Version(Some(Event(total, total)), now)];
      }
    }

    // updateEvent: the seats taken stay taken; a refusal names its cause, writes nothing and leaves the cache alone.
    method UpdateEvent(w: Id, total: int, del: CacheCall, before: seq<Step>)
      returns (result: AdminResult, ghost trace: seq<Step>)
      requires Valid() && w !in writers
      modifies this, repository
      ensures Valid() && Traces(old(View()), trace, View())
      ensures var row := old(Current(View()));
              && (result.AdminNotFound? <==> row.None?)
              && (result.AdminDone? <==> row.Some? && 0 < total && Reserved(row.value) <= total)
              && (result.BelowReserved? <==> row.Some? && total < row.value.total - row.value.available)
              && (result.AdminViolation? <==> row.Some? && row.value.total - row.value.available <= total <= 0)
              && (result.AdminDone? ==>
                    && old(history) + [Version(Some(Event(total, total - Reserved(row.value))), old(now))] <= history
                    && (del.Answered? ==> cache == None))
      ensures !result.AdminDone? ==> View() == old(View())
    {
      trace := [];
      result := repository.Update(id, total);
      if result.AdminDone? {
        trace := Publish(w, Some(repository.events[id]), del, before);
      }
    }

    // deleteEvent.
    method DeleteEvent(w: Id, del: CacheCall, before: seq<Step>) returns (result: AdminResult, ghost trace: seq<Step>)
      requires Valid() && w !in writers
      modifies this, repository
      ensures Valid() && Traces(old(View()), trace, View())
      ensures var row := old(Current(View()));
              && (result.AdminNotFound? <==> row.None?)
              && (result.AdminDone? <==> row.Some? && Reserved(row.value) == 0)
              && (result.HasReservations? <==> row.Some? && row.value.available != row.value.total)
              && (result.AdminDone? ==> old(history) + [Version(None, old(now))] <= history && (del.Answered? ==> cache == None))
      ensures !result.AdminDone? ==> View() == old(View())
    {
      trace := [];
      result := repository.Delete(id);
      if result.AdminDone? {
        trace := Publish(w, None, del, before);
      }
    }
  }
}
