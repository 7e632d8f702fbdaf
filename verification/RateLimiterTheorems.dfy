/**
 What the rate limiter promises. The store and the Redis script are compared with one small machine, the window of a
 single key; what the store adds to it is that a full store can push the key out.
 */
module RateLimiterTheorems {
  import opened Common
  import opened RateLimiter

  /******* The window of one key *******/

  function Bump(c: Option<Counter>, now: int, window: int): (d: Counter)
    ensures 1 <= d.count
  {
    if Alive(c, now) then c.value.(count := c.value.count + 1) else Counter(1, now + window)
  }

  function Report(c: Counter, now: int): Answer {
    Answer(c.count, Max(1, c.resetAt - now), c.resetAt)
  }

  function Window(c: Option<Counter>, times: seq<int>, window: int): seq<Answer>
    decreases times
  {
    if times == [] then []
    else
      var d := Bump(c, times[0], window);
      [Report(d, times[0])] + Window(Some(d), times[1..], window)
  }

  lemma WindowForgets(c: Option<Counter>, times: seq<int>, now: int, window: int)
    requires times != [] ==> now <= times[0]
    ensures Window(At(c, now), times, window) == Window(c, times, window)
  {
  }

  /******* The same with evictions *******/

  // What happens to one key: a request for it, or another request that pushes it out of the store.
  datatype Event = Hit(now: int) | Drop(now: int)

  predicate InTime(es: seq<Event>, now: int)
    decreases es
  {
    es == [] || (now <= es[0].now && InTime(es[1..], es[0].now))
  }

  function Hits(es: seq<Event>): seq<int> {
    if es == [] then [] else (if es[0].Hit? then [es[0].now] else []) + Hits(es[1..])
  }

  function Seen(c: Option<Counter>, es: seq<Event>, window: int): seq<Answer>
    decreases es
  {
    if es == [] then []
    else if es[0].Drop? then Seen(None, es[1..], window)
    else
      var d := Bump(c, es[0].now, window);
      [Report(d, es[0].now)] + Seen(Some(d), es[1..], window)
  }

  function EventsOf(slots: seq<Slot>, reqs: seq<Request>, o: Options, key: string): seq<Event>
    decreases reqs
  {
    if reqs == [] then []
    else
      (if reqs[0].key == key then [Hit(reqs[0].now)]
       else if Evicted(slots, reqs[0], o) == Some(key) then [Drop(reqs[0].now)]
       else [])
      + EventsOf(Served(slots, reqs[0], o).0, reqs[1..], o, key)
  }

  lemma {:induction false} HitsAreTimes(slots: seq<Slot>, reqs: seq<Request>, o: Options, key: string)
    ensures Hits(EventsOf(slots, reqs, o, key)) == TimesOf(reqs, key)
    decreases reqs
  {
    if reqs != [] {
      var es, rest := EventsOf(slots, reqs, o, key), EventsOf(Served(slots, reqs[0], o).0, reqs[1..], o, key);
      HitsAreTimes(Served(slots, reqs[0], o).0, reqs[1..], o, key);
      assert es == rest || es[1..] == rest;
    }
  }

  lemma InTimeSooner(es: seq<Event>, now: int, sooner: int)
    requires InTime(es, now) && sooner <= now
    ensures InTime(es, sooner)
  {
  }

  lemma {:induction false} EventsInTime(slots: seq<Slot>, reqs: seq<Request>, now: int, o: Options, key: string)
    requires InOrder(reqs, now)
    ensures InTime(EventsOf(slots, reqs, o, key), now)
    decreases reqs
  {
    if reqs != [] {
      var es, rest := EventsOf(slots, reqs, o, key), EventsOf(Served(slots, reqs[0], o).0, reqs[1..], o, key);
      EventsInTime(Served(slots, reqs[0], o).0, reqs[1..], reqs[0].now, o, key);
      assert es == rest || es[1..] == rest;
      InTimeSooner(rest, reqs[0].now, now);
    }
  }

  /******* The store answers a key by its events *******/

  lemma ServedCounts(slots: seq<Slot>, r: Request, o: Options)
    requires Distinct(slots)
    ensures Find(Served(slots, r, o).0, r.key) == Some(Bump(Find(slots, r.key), r.now, o.windowSeconds))
    ensures Served(slots, r, o).1 == Report(Bump(Find(slots, r.key), r.now, o.windowSeconds), r.now)
  {
    FindAfterPurge(slots, r.now, r.key);
    var kept := Purge(slots, r.now);
    var d := Bump(Find(slots, r.key), r.now, o.windowSeconds);
    if Find(kept, r.key).Some? {
      FindAfterPut(kept, r.key, d, r.key);
    } else {
      FindAfterPut(Room(kept, o.maxFallbackEntries), r.key, d, r.key);
    }
  }

  lemma RoomSpares(slots: seq<Slot>, cap: int, key: string)
    requires MustEvict(slots, cap) ==> slots[0].key != key
    ensures Find(Room(slots, cap), key) == Find(slots, key)
  {
  }

  lemma RoomDrops(slots: seq<Slot>, cap: int)
    requires Distinct(slots) && MustEvict(slots, cap)
    ensures Find(slots, slots[0].key) == Some(slots[0].counter) && Find(Room(slots, cap), slots[0].key) == None
  {
    FindNothing(slots[1..], slots[0].key);
  }

  lemma ServedDrops(slots: seq<Slot>, r: Request, o: Options, key: string)
    requires Distinct(slots) && Evicted(slots, r, o) == Some(key)
    ensures r.key != key && Find(Served(slots, r, o).0, key) == None && Alive(Find(slots, key), r.now)
  {
    var kept := Purge(slots, r.now);
    PurgeKeepsDistinct(slots, r.now);
    FindAfterPurge(slots, r.now, key);
    RoomDrops(kept, o.maxFallbackEntries);
    FindAfterPut(Room(kept, o.maxFallbackEntries), r.key, Counter(1, r.now + o.windowSeconds), key);
  }

  lemma PlacedSpares(kept: seq<Slot>, r: Request, o: Options, key: string)
    requires r.key != key
    requires Find(kept, r.key) == None && MustEvict(kept, o.maxFallbackEntries) ==> kept[0].key != key
    ensures Find(Placed(kept, r, o).0, key) == Find(kept, key)
  {
    var found := Find(kept, r.key);
    if found.Some? {
      FindAfterPut(kept, r.key, found.value.(count := found.value.count + 1), key);
    } else {
      RoomSpares(kept, o.maxFallbackEntries, key);
      FindAfterPut(Room(kept, o.maxFallbackEntries), r.key, Counter(1, r.now + o.windowSeconds), key);
    }
  }

  lemma ServedSpares(slots: seq<Slot>, r: Request, o: Options, key: string)
    requires Distinct(slots) && r.key != key && Evicted(slots, r, o) != Some(key)
    ensures Find(Served(slots, r, o).0, key) == At(Find(slots, key), r.now)
  {
    FindAfterPurge(slots, r.now, key);
    PlacedSpares(Purge(slots, r.now), r, o, key);
  }

  lemma SeenForgets(c: Option<Counter>, es: seq<Event>, now: int, window: int)
    requires InTime(es, now)
    ensures Seen(At(c, now), es, window) == Seen(c, es, window)
  {
  }

  // However many other keys share the store, a key is answered by its own requests and evictions.
  lemma {:induction false} FallbackIsAWindow(slots: seq<Slot>, reqs: seq<Request>, now: int, o: Options, key: string)
    requires Ordered(slots, now, o) && InOrder(reqs, now)
    ensures AnswersOf(reqs, Run(slots, reqs, o).1, key)
         == Seen(Find(slots, key), EventsOf(slots, reqs, o, key), o.windowSeconds)
    decreases reqs
  {
    if reqs != [] {
      var r, rest := reqs[0], reqs[1..];
      var next := Served(slots, r, o).0;
      var es, later := EventsOf(slots, reqs, o, key), EventsOf(next, rest, o, key);
      ServedKeepsOrder(slots, r, now, o);
      FallbackIsAWindow(next, rest, r.now, o, key);
      assert Run(slots, reqs, o).1[1..] == Run(next, rest, o).1;
      if r.key == key {
        ServedCounts(slots, r, o);
        assert es[1..] == later;
      } else {
        if Evicted(slots, r, o) == Some(key) {
          ServedDrops(slots, r, o, key);
          assert es[1..] == later;
        } else {
          ServedSpares(slots, r, o, key);
          assert es == later;
          EventsInTime(next, rest, r.now, o, key);
          SeenForgets(Find(slots, key), later, r.now, o.windowSeconds);
        }
      }
    }
  }

  /******* The Redis script *******/

  predicate Counting(db: Redis) {
    forall key :: key in db ==> 1 <= db[key].count
  }

  lemma ScriptTracksKey(db: Redis, r: Request, now: int, o: Options, key: string)
    requires Counting(db) && now <= r.now && 1 <= o.windowSeconds
    ensures var (next, count, ttl) := Script(db, r, o);
            var c := Stored(db, key, now);
            && Counting(next)
            && if r.key == key
               then Stored(next, key, r.now) == Some(Bump(c, r.now, o.windowSeconds))
                    && Understood(count, ttl, r.now, o) == Report(Bump(c, r.now, o.windowSeconds), r.now)
               else Stored(next, key, r.now) == At(c, r.now)
  {
  }

  lemma {:induction false} TimesStart(reqs: seq<Request>, now: int, key: string)
    requires InOrder(reqs, now)
    ensures TimesOf(reqs, key) != [] ==> now <= TimesOf(reqs, key)[0]
    decreases reqs
  {
    if reqs != [] { TimesStart(reqs[1..], reqs[0].now, key); }
  }

  lemma {:induction false} RedisIsAWindow(db: Redis, reqs: seq<Request>, now: int, o: Options, key: string)
    requires Counting(db) && InOrder(reqs, now) && 1 <= o.windowSeconds
    ensures AnswersOf(reqs, RedisRun(db, reqs, o), key) ==
            Window(Stored(db, key, now), TimesOf(reqs, key), o.windowSeconds)
    decreases reqs
  {
    if reqs != [] {
      var r, rest := reqs[0], reqs[1..];
      var next := Script(db, r, o).0;
      ScriptTracksKey(db, r, now, o, key);
      RedisIsAWindow(next, rest, r.now, o, key);
      assert RedisRun(db, reqs, o)[1..] == RedisRun(next, rest, o);
      TimesStart(rest, r.now, key);
      if r.key == key {
        assert TimesOf(reqs, key)[1..] == TimesOf(rest, key);
      } else {
        assert TimesOf(reqs, key) == TimesOf(rest, key);
        WindowForgets(Stored(db, key, now), TimesOf(rest, key), r.now, o.windowSeconds);
      }
    }
  }

  // A script whose key is deleted at once reports the window as time to live, which is no second at all.
  lemma {:induction false} DeletedKeysReportTheWindow(db: Redis, reqs: seq<Request>, o: Options, key: string)
    requires o.windowSeconds <= 0 && db == map[]
    ensures forall a :: a in AnswersOf(reqs, RedisRun(db, reqs, o), key) ==> a.ttl == o.windowSeconds
    ensures |AnswersOf(reqs, RedisRun(db, reqs, o), key)| == |TimesOf(reqs, key)|
    decreases reqs
  {
    if reqs != [] {
      var next := Script(db, reqs[0], o).0;
      assert next == map[];
      DeletedKeysReportTheWindow(next, reqs[1..], o, key);
      assert RedisRun(db, reqs, o)[1..] == RedisRun(next, reqs[1..], o);
    }
  }

  lemma {:induction false} SeenReportsASecond(c: Option<Counter>, es: seq<Event>, window: int)
    ensures forall a :: a in Seen(c, es, window) ==> 1 <= a.ttl
    ensures |Seen(c, es, window)| == |Hits(es)|
    decreases es
  {
    if es != [] { SeenReportsASecond(if es[0].Drop? then None else Some(Bump(c, es[0].now, window)), es[1..], window); }
  }

  /******* When the store stands in for Redis *******/

  // A key that is pushed out is not asked for again before its window would have ended.
  predicate Harmless(c: Option<Counter>, es: seq<Event>, window: int)
    decreases es
  {
    es == [] ||
    match es[0]
    case Hit(now) => Harmless(Some(Bump(c, now, window)), es[1..], window)
    case Drop(now) =>
      && (Alive(c, now) && Hits(es[1..]) != [] ==> c.value.resetAt <= Hits(es[1..])[0])
      && Harmless(None, es[1..], window)
  }

  lemma {:induction false} FirstIsOne(es: seq<Event>, window: int)
    requires Hits(es) != []
    ensures Seen(None, es, window) != [] && Seen(None, es, window)[0].requests == 1
    decreases es
  {
    if es[0].Drop? { FirstIsOne(es[1..], window); }
  }

  // Losing a counter shows exactly if it would still have been alive at the next request.
  lemma LossShows(c: Option<Counter>, es: seq<Event>, now: int, window: int)
    requires InTime(es, now) && (c.Some? ==> 1 <= c.value.count)
    ensures Hits(es) == [] || !Alive(c, Hits(es)[0]) ==> Window(c, Hits(es), window) == Window(None, Hits(es), window)
    ensures Hits(es) != [] && Alive(c, Hits(es)[0]) ==> Window(c, Hits(es), window) != Seen(None, es, window)
  {
    if Hits(es) != [] && Alive(c, Hits(es)[0]) {
      FirstIsOne(es, window);
      assert Window(c, Hits(es), window)[0].requests == c.value.count + 1;
    }
  }

  lemma {:induction false} HitsInTime(es: seq<Event>, now: int)
    requires InTime(es, now)
    ensures Hits(es) != [] ==> now <= Hits(es)[0]
    decreases es
  {
    if es != [] { HitsInTime(es[1..], es[0].now); }
  }

  lemma {:induction false} EvictionsAreHarmlessOrShow(c: Option<Counter>, es: seq<Event>, now: int, window: int)
    requires InTime(es, now) && (c.Some? ==> 1 <= c.value.count)
    ensures Seen(c, es, window) == Window(c, Hits(es), window) <==> Harmless(c, es, window)
    decreases es
  {
    if es != [] {
      var rest, t := es[1..], es[0].now;
      if es[0].Hit? {
        var d := Bump(c, t, window);
        EvictionsAreHarmlessOrShow(Some(d), rest, t, window);
        assert Hits(es)[1..] == Hits(rest);
        assert Seen(c, es, window)[1..] == Seen(Some(d), rest, window);
        assert Window(c, Hits(es), window)[1..] == Window(Some(d), Hits(rest), window);
      } else {
        EvictionsAreHarmlessOrShow(None, rest, t, window);
        assert Hits(es) == Hits(rest);
        LossShows(c, rest, t, window);
        HitsInTime(rest, t);
      }
    }
  }

  // Count, time to live and reset time are those of the script, for a key and a whole run of requests, exactly when
  // windows last a second or more and every eviction of the key is harmless.
  lemma FallbackRefinesScript(reqs: seq<Request>, start: int, o: Options, key: string)
    requires InOrder(reqs, start)
    ensures AnswersOf(reqs, Run([], reqs, o).1, key) == AnswersOf(reqs, RedisRun(map[], reqs, o), key)
       <==> TimesOf(reqs, key) == []
            || (1 <= o.windowSeconds && Harmless(None, EventsOf([], reqs, o, key), o.windowSeconds))
  {
    var es := EventsOf([], reqs, o, key);
    FallbackIsAWindow([], reqs, start, o, key);
    HitsAreTimes([], reqs, o, key);
    if 1 <= o.windowSeconds {
      RedisIsAWindow(map[], reqs, start, o, key);
      EventsInTime([], reqs, start, o, key);
      EvictionsAreHarmlessOrShow(None, es, start, o.windowSeconds);
      if TimesOf(reqs, key) == [] { NoTimesNoEffect(es, o.windowSeconds); }
    } else {
      DeletedKeysReportTheWindow(map[], reqs, o, key);
      SeenReportsASecond(None, es, o.windowSeconds);
      if TimesOf(reqs, key) != [] {
        assert Seen(None, es, o.windowSeconds)[0] in Seen(None, es, o.windowSeconds);
        assert AnswersOf(reqs, RedisRun(map[], reqs, o), key)[0] in AnswersOf(reqs, RedisRun(map[], reqs, o), key);
      }
    }
  }

  lemma {:induction false} NoTimesNoEffect(es: seq<Event>, window: int)
    requires Hits(es) == []
    ensures Harmless(None, es, window)
    decreases es
  {
    if es != [] { NoTimesNoEffect(es[1..], window); }
  }

  // Without a positive window the very first answers differ, in the time to live alone.
  lemma NoWindowNoRefinement(r: Request, o: Options)
    requires o.windowSeconds <= 0
    ensures Run([], [r], o).1 != RedisRun(map[], [r], o)
    ensures var a, b := Run([], [r], o).1[0], RedisRun(map[], [r], o)[0];
            a.requests == b.requests && a.resetAt == b.resetAt && a.ttl == 1 && b.ttl == o.windowSeconds
  {
    var (next, count, ttl) := Script(map[], r, o);
    assert ttl == -2;
    assert RedisRun(map[], [r], o)[0] == Understood(1, -2, r.now, o);
    assert Served([], r, o).1 == Answer(1, 1, r.now + o.windowSeconds);
    assert Run([], [r], o).1[0] == Served([], r, o).1;
  }

  const CROWDED: seq<Request> := [Request("a", 0), Request("b", 0), Request("a", 1)]

  lemma CrowdedStore(o: Options)
    requires o.windowSeconds == 60 && o.maxFallbackEntries == 1
    ensures Run([], CROWDED, o).1 == [Answer(1, 60, 60), Answer(1, 60, 60), Answer(1, 60, 61)]
  {
    assert "a" != "b" by { assert "a"[0] != "b"[0]; }
    var rest, last := CROWDED[1..], CROWDED[2..];
    assert rest == [Request("b", 0), Request("a", 1)] && rest[1..] == last == [Request("a", 1)] && last[1..] == [];
    var s1, s2 := [Slot("a", Counter(1, 60))], [Slot("b", Counter(1, 60))];
    assert s1[1..] == [] && s2[1..] == [] && Purge(s1, 0) == s1 && Purge(s2, 1) == s2 && Room(s1, 1) == Room(s2, 1) == [];
    assert Served([], CROWDED[0], o) == (s1, Answer(1, 60, 60));
    assert Served(s1, rest[0], o) == (s2, Answer(1, 60, 60));
    assert Served(s2, last[0], o) == ([Slot("a", Counter(1, 61))], Answer(1, 60, 61));
  }

  lemma CrowdedRedis(o: Options)
    requires o.windowSeconds == 60
    ensures RedisRun(map[], CROWDED, o) == [Answer(1, 60, 60), Answer(1, 60, 60), Answer(2, 59, 60)]
  {
    assert "a" != "b" by { assert "a"[0] != "b"[0]; }
    var rest, last := CROWDED[1..], CROWDED[2..];
    assert rest == [Request("b", 0), Request("a", 1)] && rest[1..] == last == [Request("a", 1)] && last[1..] == [];
    var d1 := map["a" := Counter(1, 60)];
    var d2 := map["a" := Counter(1, 60), "b" := Counter(1, 60)];
    assert Incr(map[], "a", 0) == (map["a" := Counter(1, 0)], 1) && Expire(map["a" := Counter(1, 0)], "a", 0, 60) == d1;
    assert Script(map[], CROWDED[0], o) == (d1, 1, 60);
    assert Incr(d1, "b", 0) == (d1["b" := Counter(1, 0)], 1) && Expire(d1["b" := Counter(1, 0)], "b", 0, 60) == d2;
    assert Script(d1, rest[0], o) == (d2, 1, 60);
    assert Script(d2, last[0], o).1 == 2 && Script(d2, last[0], o).2 == 59;
  }

  lemma CrowdedAnswers(x: Answer, y: Answer, z: Answer)
    ensures AnswersOf(CROWDED, [x, y, z], "a") == [x, z]
  {
    assert "a" != "b" by { assert "a"[0] != "b"[0]; }
    var rest, last := CROWDED[1..], CROWDED[2..];
    assert rest == [Request("b", 0), Request("a", 1)] && rest[1..] == last == [Request("a", 1)] && last[1..] == [];
    assert [x, y, z][1..] == [y, z] && [y, z][1..] == [z] && [z][1..] == [];
    assert AnswersOf(last, [z], "a") == [z];
    assert AnswersOf(rest, [y, z], "a") == [z];
  }

  // With room for one key, the second request for "a" counts 1 in the store and 2 in Redis.
  lemma EvictionForgets(o: Options)
    requires o.windowSeconds == 60 && o.maxFallbackEntries == 1
    ensures AnswersOf(CROWDED, Run([], CROWDED, o).1, "a") == [Answer(1, 60, 60), Answer(1, 60, 61)]
    ensures AnswersOf(CROWDED, RedisRun(map[], CROWDED, o), "a") == [Answer(1, 60, 60), Answer(2, 59, 60)]
  {
    CrowdedStore(o);
    CrowdedRedis(o);
    CrowdedAnswers(Answer(1, 60, 60), Answer(1, 60, 60), Answer(1, 60, 61));
    CrowdedAnswers(Answer(1, 60, 60), Answer(1, 60, 60), Answer(2, 59, 60));
  }

  /******* How much a window lets through *******/

  // The requests of the interval [from, from + window) that are let through.
  function Passed(times: seq<int>, answers: seq<Answer>, max: int, from: int, window: int): nat
    decreases times
  {
    if times == [] || answers == [] then 0
    else
      (if from <= times[0] < from + window && answers[0].requests <= max then 1 else 0)
      + Passed(times[1..], answers[1..], max, from, window)
  }

  // The requests of one window, known by its reset time, that are let through.
  function PassedBefore(answers: seq<Answer>, max: int, resetAt: int): nat {
    if answers == [] then 0
    else (if answers[0].resetAt == resetAt && answers[0].requests <= max then 1 else 0)
         + PassedBefore(answers[1..], max, resetAt)
  }

  // One more allowance for each time the key is pushed out within the interval [from, until).
  function Again(es: seq<Event>, max: int, from: int, until: int): nat {
    if es == [] then 0
    else (if es[0].Drop? && from <= es[0].now < until then Max(0, max) else 0) + Again(es[1..], max, from, until)
  }

  function PassedSeen(c: Option<Counter>, es: seq<Event>, window: int, max: int, from: int): nat {
    Passed(Hits(es), Seen(c, es, window), max, from, window)
  }

  lemma PassedHit(c: Option<Counter>, es: seq<Event>, window: int, max: int, from: int)
    requires es != [] && es[0].Hit?
    ensures var d := Bump(c, es[0].now, window);
            PassedSeen(c, es, window, max, from)
            == (if from <= es[0].now < from + window && d.count <= max then 1 else 0)
               + PassedSeen(Some(d), es[1..], window, max, from)
  {
    assert Hits(es)[1..] == Hits(es[1..]);
    assert Seen(c, es, window)[1..] == Seen(Some(Bump(c, es[0].now, window)), es[1..], window);
  }

  lemma PassedDrop(c: Option<Counter>, es: seq<Event>, window: int, max: int, from: int)
    requires es != [] && es[0].Drop?
    ensures PassedSeen(c, es, window, max, from) == PassedSeen(None, es[1..], window, max, from)
  {
    assert Hits(es) == Hits(es[1..]);
  }

  lemma {:induction false} PassedNothingLater(c: Option<Counter>, es: seq<Event>, window: int, max: int, from: int)
    requires InTime(es, from + window)
    ensures PassedSeen(c, es, window, max, from) == 0
    decreases es
  {
    if es != [] {
      InTimeSooner(es[1..], es[0].now, from + window);
      if es[0].Hit? {
        PassedHit(c, es, window, max, from);
        PassedNothingLater(Some(Bump(c, es[0].now, window)), es[1..], window, max, from);
      } else {
        PassedDrop(c, es, window, max, from);
        PassedNothingLater(None, es[1..], window, max, from);
      }
    }
  }

  // What is left of the window under way.
  function Left(c: Option<Counter>, now: int, max: int): nat {
    if Alive(c, now) then Max(0, max - c.value.count) else 0
  }

  // Within the interval, a window that outlives it has only its remaining allowance, and so has a fresh one.
  lemma {:induction false} PassedWithin(c: Option<Counter>, es: seq<Event>, window: int, max: int, from: int, now: int)
    requires InTime(es, now) && from <= now && (c.Some? ==> from + window <= c.value.resetAt)
    ensures PassedSeen(c, es, window, max, from)
         <= (if c.Some? then Max(0, max - c.value.count) else Max(0, max)) + Again(es, max, from, from + window)
    decreases es
  {
    if es != [] {
      if from + window <= es[0].now {
        InTimeSooner(es[1..], es[0].now, es[0].now);
        PassedNothingLater(c, es, window, max, from);
      } else if es[0].Hit? {
        PassedHit(c, es, window, max, from);
        PassedWithin(Some(Bump(c, es[0].now, window)), es[1..], window, max, from, es[0].now);
      } else {
        PassedDrop(c, es, window, max, from);
        PassedWithin(None, es[1..], window, max, from, es[0].now);
      }
    }
  }

  // Once the interval has begun: the allowance of the window under way, and that of one more.
  lemma {:induction false} PassedFrom(c: Option<Counter>, es: seq<Event>, window: int, max: int, from: int, now: int)
    requires InTime(es, now) && from <= now
    ensures PassedSeen(c, es, window, max, from) <= Left(c, now, max) + Max(0, max) + Again(es, max, from, from + window)
    decreases es
  {
    if es != [] {
      var t, rest := es[0].now, es[1..];
      if from + window <= t {
        PassedNothingLater(c, es, window, max, from);
      } else if es[0].Drop? {
        PassedDrop(c, es, window, max, from);
        PassedFrom(None, rest, window, max, from, t);
      } else {
        var d := Bump(c, t, window);
        PassedHit(c, es, window, max, from);
        if Alive(c, t) {
          PassedFrom(Some(d), rest, window, max, from, t);
        } else {
          PassedWithin(Some(d), rest, window, max, from, t);
        }
      }
    }
  }

  lemma {:induction false} WindowBound(c: Option<Counter>, es: seq<Event>, window: int, max: int, from: int, now: int)
    requires InTime(es, now) && (c.Some? ==> 1 <= c.value.count)
    ensures PassedSeen(c, es, window, max, from) <= Max(0, 2 * max - 1) + Again(es, max, from, from + window)
    decreases es
  {
    if es != [] {
      var t, rest := es[0].now, es[1..];
      if from <= t {
        PassedFrom(c, es, window, max, from, t);
      } else if es[0].Drop? {
        PassedDrop(c, es, window, max, from);
        WindowBound(None, rest, window, max, from, t);
      } else {
        PassedHit(c, es, window, max, from);
        WindowBound(Some(Bump(c, t, window)), rest, window, max, from, t);
      }
    }
  }

  function AllHits(times: seq<int>): seq<Event> {
    if times == [] then [] else [Hit(times[0])] + AllHits(times[1..])
  }

  lemma {:induction false} AllHitsAreHits(c: Option<Counter>, times: seq<int>, window: int)
    ensures Hits(AllHits(times)) == times && Seen(c, AllHits(times), window) == Window(c, times, window)
    decreases times
  {
    if times != [] {
      AllHitsAreHits(Some(Bump(c, times[0], window)), times[1..], window);
      assert AllHits(times)[1..] == AllHits(times[1..]);
    }
  }

  lemma {:induction false} NothingAgain(times: seq<int>, max: int, from: int, until: int)
    ensures Again(AllHits(times), max, from, until) == 0
  {
    if times != [] {
      assert AllHits(times)[1..] == AllHits(times[1..]);
      NothingAgain(times[1..], max, from, until);
    }
  }

  lemma {:induction false} HitsStayInTime(es: seq<Event>, now: int)
    requires InTime(es, now)
    ensures InTime(AllHits(Hits(es)), now)
    decreases es
  {
    if es != [] {
      var rest := es[1..];
      HitsStayInTime(rest, es[0].now);
      if es[0].Hit? {
        assert Hits(es)[1..] == Hits(rest) && AllHits(Hits(es))[1..] == AllHits(Hits(rest));
      } else {
        assert Hits(es) == Hits(rest);
        InTimeSooner(AllHits(Hits(rest)), es[0].now, now);
      }
    }
  }

  lemma HarmlessBound(es: seq<Event>, start: int, window: int, max: int, from: int)
    requires InTime(es, start) && Harmless(None, es, window)
    ensures PassedSeen(None, es, window, max, from) <= Max(0, 2 * max - 1)
  {
    EvictionsAreHarmlessOrShow(None, es, start, window);
    AllHitsAreHits(None, Hits(es), window);
    HitsStayInTime(es, start);
    WindowBound(None, AllHits(Hits(es)), window, max, from, start);
    NothingAgain(Hits(es), max, from, from + window);
  }

  // Any interval as long as the window lets fewer than twice the maximum through, and the maximum once more for each
  // time the key is pushed out in it. Evictions that are harmless add nothing.
  lemma FixedWindowBound(reqs: seq<Request>, start: int, o: Options, key: string, from: int)
    requires InOrder(reqs, start)
    ensures var es := EventsOf([], reqs, o, key);
            var answers := AnswersOf(reqs, Run([], reqs, o).1, key);
            var passed := Passed(TimesOf(reqs, key), answers, o.maxRequests, from, o.windowSeconds);
            && passed <= Max(0, 2 * o.maxRequests - 1) + Again(es, o.maxRequests, from, from + o.windowSeconds)
            && (Harmless(None, es, o.windowSeconds) ==> passed <= Max(0, 2 * o.maxRequests - 1))
  {
    var es := EventsOf([], reqs, o, key);
    FallbackIsAWindow([], reqs, start, o, key);
    HitsAreTimes([], reqs, o, key);
    EventsInTime([], reqs, start, o, key);
    WindowBound(None, es, o.windowSeconds, o.maxRequests, from, start);
    if Harmless(None, es, o.windowSeconds) { HarmlessBound(es, start, o.windowSeconds, o.maxRequests, from); }
  }

  /******* One window *******/

  lemma {:induction false} PassedAfterOpening(c: Option<Counter>, es: seq<Event>, window: int, max: int, resetAt: int, now: int)
    requires InTime(es, now) && resetAt - window < now && (c.Some? ==> c.value.resetAt != resetAt || resetAt <= now)
    ensures PassedBefore(Seen(c, es, window), max, resetAt) == 0
    decreases es
  {
    if es != [] {
      if es[0].Drop? {
        PassedAfterOpening(None, es[1..], window, max, resetAt, es[0].now);
      } else {
        var d := Bump(c, es[0].now, window);
        PassedAfterOpening(Some(d), es[1..], window, max, resetAt, es[0].now);
        assert Seen(c, es, window)[1..] == Seen(Some(d), es[1..], window);
      }
    }
  }

  // A second window with the same reset time can only open in the second that opened the first.
  lemma {:induction false} PassedUnderWay(c: Counter, es: seq<Event>, window: int, max: int, now: int)
    requires InTime(es, now) && 1 <= window && c.resetAt - window <= now
    ensures PassedBefore(Seen(Some(c), es, window), max, c.resetAt)
         <= Max(0, max - c.count) + Again(es, max, c.resetAt - window, c.resetAt - window + 1)
    decreases es
  {
    if es != [] {
      var t, rest := es[0].now, es[1..];
      if es[0].Drop? {
        if t == c.resetAt - window {
          OneWindowBound(None, rest, window, max, c.resetAt, t);
        } else {
          PassedAfterOpening(None, rest, window, max, c.resetAt, t);
        }
      } else if c.resetAt <= t {
        PassedAfterOpening(Some(c), es, window, max, c.resetAt, t);
      } else {
        var d := Bump(Some(c), t, window);
        PassedUnderWay(d, rest, window, max, t);
        assert Seen(Some(c), es, window)[1..] == Seen(Some(d), rest, window);
      }
    }
  }

  lemma {:induction false} OneWindowBound(c: Option<Counter>, es: seq<Event>, window: int, max: int, resetAt: int, now: int)
    requires InTime(es, now) && 1 <= window && (c.Some? ==> c.value.resetAt != resetAt)
    ensures PassedBefore(Seen(c, es, window), max, resetAt)
         <= Max(0, max) + Again(es, max, resetAt - window, resetAt - window + 1)
    decreases es
  {
    if es != [] {
      var t, rest := es[0].now, es[1..];
      if es[0].Drop? {
        OneWindowBound(None, rest, window, max, resetAt, t);
      } else {
        var d := Bump(c, t, window);
        assert Seen(c, es, window)[1..] == Seen(Some(d), rest, window);
        if d.resetAt == resetAt {
          PassedUnderWay(d, rest, window, max, t);
        } else {
          OneWindowBound(Some(d), rest, window, max, resetAt, t);
        }
      }
    }
  }

  // One window lets no more than the maximum through, unless the key is pushed out in the very second that opened it.
  lemma WindowLetsMaximumThrough(reqs: seq<Request>, start: int, o: Options, key: string, resetAt: int)
    requires InOrder(reqs, start) && 1 <= o.windowSeconds
    ensures var opening := resetAt - o.windowSeconds;
            PassedBefore(AnswersOf(reqs, Run([], reqs, o).1, key), o.maxRequests, resetAt)
            <= Max(0, o.maxRequests) + Again(EventsOf([], reqs, o, key), o.maxRequests, opening, opening + 1)
  {
    FallbackIsAWindow([], reqs, start, o, key);
    EventsInTime([], reqs, start, o, key);
    OneWindowBound(None, EventsOf([], reqs, o, key), o.windowSeconds, o.maxRequests, resetAt, start);
  }

  /******* What the headers promise *******/

  // The remaining allowance is how many of any further requests in the window will pass.
  lemma {:induction false} RemainingIsTruthful(c: Counter, t: int, later: seq<int>, o: Options)
    requires forall i :: 0 <= i < |later| ==> t <= later[i] < c.resetAt
    ensures PassedBefore(Window(Some(c), later, o.windowSeconds), o.maxRequests, c.resetAt)
         == Min(|later|, Respond(Report(c, t), o).remaining)
    decreases later
  {
    if later != [] {
      var d := Bump(Some(c), later[0], o.windowSeconds);
      assert Window(Some(c), later, o.windowSeconds)[1..] == Window(Some(d), later[1..], o.windowSeconds);
      RemainingIsTruthful(d, t, later[1..], o);
    }
  }

  // A rejected client that waits as long as it is told finds a fresh window, and not a second sooner.
  lemma RetryAfterIsExact(c: Counter, t: int, o: Options)
    requires t < c.resetAt
    ensures var response := Respond(Report(c, t), o);
            && (response.retryAfter.Some? <==> c.count > o.maxRequests)
            && response.reset == c.resetAt && response.limit == o.maxRequests
            && (response.retryAfter.Some? ==>
                  forall u :: t <= u ==> (Alive(Some(c), u) <==> u < t + response.retryAfter.value))
  {
  }

  /******* The bound is reached *******/

  function Burst(t: int, n: nat): (times: seq<int>)
    ensures |times| == n && forall x :: x in times ==> x == t
  {
    seq(n, _ => t)
  }

  lemma {:induction false} BurstPasses(c: Counter, t: int, n: nat, rest: seq<int>, window: int, max: int, from: int)
    requires from <= t < from + window && t < c.resetAt && c.count + n <= max
    ensures Passed(Burst(t, n) + rest, Window(Some(c), Burst(t, n) + rest, window), max, from, window)
         == n + Passed(rest, Window(Some(Counter(c.count + n, c.resetAt)), rest, window), max, from, window)
    decreases n
  {
    var times := Burst(t, n) + rest;
    if n == 0 {
      assert times == rest;
    } else {
      var d := Bump(Some(c), t, window);
      assert times[1..] == Burst(t, n - 1) + rest;
      assert Window(Some(c), times, window)[1..] == Window(Some(d), times[1..], window);
      BurstPasses(d, t, n - 1, rest, window, max, from);
    }
  }

  // One request opens a window, the rest of its allowance comes in its last second, and a full one follows at once.
  function Worst(window: int, max: int): seq<int>
    requires 1 <= max
  {
    [0] + (Burst(window - 1, max - 1) + ([window] + Burst(window, max - 1)))
  }

  lemma SecondWindow(window: int, max: int)
    requires 2 <= window && 1 <= max
    ensures var second := [window] + Burst(window, max - 1);
            Passed(second, Window(Some(Counter(max, window)), second, window), max, window - 1, window) == max
  {
    var last := Burst(window, max - 1);
    var second := [window] + last;
    var again := Counter(1, 2 * window);
    assert second[1..] == last && last + [] == last;
    assert Window(Some(Counter(max, window)), second, window)[1..] == Window(Some(again), last, window);
    BurstPasses(again, window, max - 1, [], window, max, window - 1);
  }

  lemma WorstPasses(window: int, max: int)
    requires 2 <= window && 1 <= max
    ensures var worst := Worst(window, max);
            Passed(worst, Window(None, worst, window), max, window - 1, window) == 2 * max - 1
  {
    var second := [window] + Burst(window, max - 1);
    var first := Burst(window - 1, max - 1) + second;
    var all := Worst(window, max);
    assert all[1..] == first;
    assert Window(None, all, window)[1..] == Window(Some(Counter(1, window)), first, window);
    BurstPasses(Counter(1, window), window - 1, max - 1, second, window, max, window - 1);
    SecondWindow(window, max);
  }

  function Requests(key: string, times: seq<int>): seq<Request> {
    if times == [] then [] else [Request(key, times[0])] + Requests(key, times[1..])
  }

  // A key that is alone is never pushed out.
  lemma {:induction false} AloneIsHit(slots: seq<Slot>, key: string, times: seq<int>, o: Options)
    ensures EventsOf(slots, Requests(key, times), o, key) == AllHits(times) && TimesOf(Requests(key, times), key) == times
    ensures key != "" ==> Keyed(Requests(key, times))
    decreases times
  {
    if times != [] {
      var reqs := Requests(key, times);
      assert reqs[1..] == Requests(key, times[1..]);
      AloneIsHit(Served(slots, reqs[0], o).0, key, times[1..], o);
    }
  }

  lemma {:induction false} AscendingInOrder(key: string, times: seq<int>, now: int)
    requires forall i, j :: 0 <= i < j < |times| ==> times[i] <= times[j]
    requires times != [] ==> now <= times[0]
    ensures InOrder(Requests(key, times), now)
    decreases times
  {
    if times != [] {
      assert Requests(key, times)[1..] == Requests(key, times[1..]);
      AscendingInOrder(key, times[1..], times[0]);
    }
  }

  ghost predicate Reaches(o: Options, key: string, reqs: seq<Request>, from: int) {
    && InOrder(reqs, 0) && Keyed(reqs)
    && var answers := AnswersOf(reqs, Run([], reqs, o).1, key);
       Passed(TimesOf(reqs, key), answers, o.maxRequests, from, o.windowSeconds) == 2 * o.maxRequests - 1
  }

  // For any maximum, and any window of two seconds or more, some requests to the limiter reach the bound.
  lemma BoundIsReached(o: Options, key: string)
    requires 2 <= o.windowSeconds && 1 <= o.maxRequests && key != ""
    ensures exists reqs, from :: Reaches(o, key, reqs, from)
  {
    var worst := Worst(o.windowSeconds, o.maxRequests);
    AscendingInOrder(key, worst, 0);
    AloneIsHit([], key, worst, o);
    FallbackIsAWindow([], Requests(key, worst), 0, o, key);
    AllHitsAreHits(None, worst, o.windowSeconds);
    WorstPasses(o.windowSeconds, o.maxRequests);
    assert Reaches(o, key, Requests(key, worst), o.windowSeconds - 1);
  }
}
