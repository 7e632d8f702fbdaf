/**
 The fixed-window rate limiter of the event service: the bounded in-memory store it falls back to, and the Redis script
 it stands in for. Time is in whole seconds.
 */
module RateLimiter {
  import opened Common

  datatype Options = Options(windowSeconds: int, maxRequests: int, maxFallbackEntries: int)

  datatype Counter = Counter(count: nat, resetAt: int)

  // The entries of a JavaScript Map, in insertion order.
  datatype Slot = Slot(key: string, counter: Counter)

  datatype Request = Request(key: string, now: int)

  datatype Answer = Answer(requests: nat, ttl: int, resetAt: int)

  predicate Alive(c: Option<Counter>, now: int) {
    c.Some? && now < c.value.resetAt
  }

  // What is left of a counter at a time.
  function At(c: Option<Counter>, now: int): Option<Counter> {
    if Alive(c, now) then c else None
  }

  /******* The in-memory store *******/

  // Expired entries go first.
  function Purge(slots: seq<Slot>, now: int): seq<Slot> {
    if slots == [] then []
    else if slots[0].counter.resetAt <= now then Purge(slots[1..], now)
    else [slots[0]] + Purge(slots[1..], now)
  }

  function Find(slots: seq<Slot>, key: string): Option<Counter> {
    if slots == [] then None
    else if slots[0].key == key then Some(slots[0].counter)
    else Find(slots[1..], key)
  }

  function Put(slots: seq<Slot>, key: string, counter: Counter): seq<Slot> {
    if slots == [] then [Slot(key, counter)]
    else if slots[0].key == key then [Slot(key, counter)] + slots[1..]
    else [slots[0]] + Put(slots[1..], key, counter)
  }

  // An empty oldest key would be falsy and stay.
  predicate MustEvict(slots: seq<Slot>, cap: int) {
    slots != [] && cap <= |slots| && slots[0].key != ""
  }

  function Room(slots: seq<Slot>, cap: int): seq<Slot> {
    if MustEvict(slots, cap) then slots[1..] else slots
  }

  // The key that a request pushes out of the store.
  function Evicted(slots: seq<Slot>, r: Request, o: Options): Option<string> {
    var kept := Purge(slots, r.now);
    if Find(kept, r.key).None? && MustEvict(kept, o.maxFallbackEntries) then Some(kept[0].key) else None
  }

  // The request once the expired entries are gone.
  function Placed(kept: seq<Slot>, r: Request, o: Options): (seq<Slot>, Answer) {
    var found := Find(kept, r.key);
    var room := if found.None? then Room(kept, o.maxFallbackEntries) else kept;
    var c := if found.Some? then found.value else Counter(0, r.now + o.windowSeconds);
    (Put(room, r.key, c.(count := c.count + 1)), Answer(c.count + 1, Max(1, c.resetAt - r.now), c.resetAt))
  }

  function Served(slots: seq<Slot>, r: Request, o: Options): (seq<Slot>, Answer) {
    Placed(Purge(slots, r.now), r, o)
  }

  datatype Response = Response(limit: int, remaining: int, reset: int, retryAfter: Option<int>)

  function Respond(a: Answer, o: Options): Response {
    Response(o.maxRequests, Max(0, o.maxRequests - a.requests), a.resetAt,
             if a.requests <= o.maxRequests then None else Some(a.ttl))
  }

  // What the Redis call did: the script's two numbers, or no usable connection.
  datatype Reply = Reply(count: nat, ttl: int) | Unavailable

  function Understood(count: nat, ttl: int, now: int, o: Options): Answer {
    var used := if ttl > 0 then ttl else o.windowSeconds;
    Answer(count, used, now + used)
  }

  class Limiter {
    const options: Options
    var slots: seq<Slot>

    constructor (options: Options)
      ensures this.options == options && slots == []
    {
      this.options := options;
      slots := [];
    }

    // The loop deletes while it iterates, which a Map allows.
    method DeleteExpired(now: int)
      modifies this`slots
      ensures slots == Purge(old(slots), now)
    {
      var i := 0;
      ghost var kept, left: seq<Slot> := [], slots;
      while i < |slots|
        invariant i == |kept| && slots == kept + left
        invariant kept + Purge(left, now) == Purge(old(slots), now)
        decreases |slots| - i
      {
        assert slots[i] == left[0] && slots[..i] == kept && slots[i + 1..] == left[1..];
        if slots[i].counter.resetAt <= now {
          slots := slots[..i] + slots[i + 1..];
        } else {
          assert kept + ([left[0]] + Purge(left[1..], now)) == (kept + [left[0]]) + Purge(left[1..], now);
          kept := kept + [left[0]];
          i := i + 1;
        }
        left := left[1..];
      }
      assert left == [] && kept + [] == kept;
    }

    method Lookup(key: string) returns (c: Option<Counter>)
      ensures c == Find(slots, key)
    {
      var i := 0;
      while i < |slots|
        invariant 0 <= i <= |slots|
        invariant Find(slots[i..], key) == Find(slots, key)
      {
        assert slots[i..][1..] == slots[i + 1..];
        if slots[i].key == key { return Some(slots[i].counter); }
        i := i + 1;
      }
      c := None;
    }

    method ConsumeFallback(key: string, now: int) returns (a: Answer)
      modifies this`slots
      ensures (slots, a) == Served(old(slots), Request(key, now), options)
    {
      DeleteExpired(now);
      var entry := Lookup(key);
      if entry.None? {
        if |slots| >= options.maxFallbackEntries && |slots| > 0 {
          var oldestKey := slots[0].key;
          if oldestKey != "" { slots := slots[1..]; }
        }
        entry := Some(Counter(0, now + options.windowSeconds));
      }
      var c := entry.value.(count := entry.value.count + 1);
      slots := Put(slots, key, c);
      a := Answer(c.count, Max(1, c.resetAt - now), c.resetAt);
    }

    method Handle(key: string, now: int, redis: Reply) returns (response: Response)
      modifies this`slots
      ensures redis.Reply? ==>
                slots == old(slots) && response == Respond(Understood(redis.count, redis.ttl, now, options), options)
      ensures redis.Reply? ==>
                var wait := if 0 < redis.ttl then redis.ttl else options.windowSeconds;
                && response.limit == options.maxRequests && response.reset == now + wait
                && (if redis.count <= options.maxRequests
                    then response.retryAfter == None && response.remaining == options.maxRequests - redis.count
                    else response.retryAfter == Some(wait) && response.remaining == 0)
      ensures redis.Unavailable? ==>
                var (left, a) := Served(old(slots), Request(key, now), options);
                slots == left && response == Respond(a, options)
    {
      var a: Answer;
      if redis.Reply? {
        a := Understood(redis.count, redis.ttl, now, options);
      } else {
        a := ConsumeFallback(key, now);
      }
      response := Respond(a, options);
    }
  }

  /******* Runs of requests *******/

  function Run(slots: seq<Slot>, reqs: seq<Request>, o: Options): (seq<Slot>, seq<Answer>)
    decreases reqs
  {
    if reqs == [] then (slots, [])
    else
      var (next, a) := Served(slots, reqs[0], o);
      var (last, rest) := Run(next, reqs[1..], o);
      (last, [a] + rest)
  }

  // Requests in order of time, none before `now`.
  predicate InOrder(reqs: seq<Request>, now: int)
    decreases reqs
  {
    reqs == [] || (now <= reqs[0].now && InOrder(reqs[1..], reqs[0].now))
  }

  predicate Keyed(reqs: seq<Request>) {
    forall r :: r in reqs ==> r.key != ""
  }

  function TimesOf(reqs: seq<Request>, key: string): seq<int> {
    if reqs == [] then []
    else (if reqs[0].key == key then [reqs[0].now] else []) + TimesOf(reqs[1..], key)
  }

  function AnswersOf(reqs: seq<Request>, answers: seq<Answer>, key: string): seq<Answer>
    decreases reqs
  {
    if reqs == [] || answers == [] then []
    else (if reqs[0].key == key then [answers[0]] else []) + AnswersOf(reqs[1..], answers[1..], key)
  }

  /******* Order and size of the store *******/

  predicate Distinct(slots: seq<Slot>) {
    forall i, j :: 0 <= i < j < |slots| ==> slots[i].key != slots[j].key
  }

  predicate Sorted(slots: seq<Slot>) {
    forall i, j :: 0 <= i < j < |slots| ==> slots[i].counter.resetAt <= slots[j].counter.resetAt
  }

  predicate Settled(s: Slot, now: int, o: Options) {
    s.counter.resetAt <= now + o.windowSeconds
  }

  // Whatever window is opened at `now` or later ends no sooner than the windows in the store.
  predicate Ordered(slots: seq<Slot>, now: int, o: Options) {
    && Distinct(slots) && Sorted(slots)
    && forall i :: 0 <= i < |slots| ==> Settled(slots[i], now, o)
  }

  predicate Bounded(slots: seq<Slot>, o: Options) {
    |slots| <= Max(1, o.maxFallbackEntries)
  }

  lemma {:induction false} PurgeKeepsSome(slots: seq<Slot>, now: int)
    ensures |Purge(slots, now)| <= |slots|
    ensures forall s :: s in Purge(slots, now) ==> s in slots && now < s.counter.resetAt
  {
    if slots != [] { PurgeKeepsSome(slots[1..], now); }
  }

  lemma {:induction false} PurgeKeepsDistinct(slots: seq<Slot>, now: int)
    requires Distinct(slots)
    ensures Distinct(Purge(slots, now))
  {
    if slots != [] {
      var rest := slots[1..];
      PurgeKeepsDistinct(rest, now);
      PurgeKeepsSome(rest, now);
      assert forall s :: s in rest ==> s.key != slots[0].key;
    }
  }

  lemma {:induction false} PurgeKeepsSorted(slots: seq<Slot>, now: int)
    requires Sorted(slots)
    ensures Sorted(Purge(slots, now))
  {
    if slots != [] {
      var rest := slots[1..];
      PurgeKeepsSorted(rest, now);
      PurgeKeepsSome(rest, now);
      assert forall s :: s in rest ==> slots[0].counter.resetAt <= s.counter.resetAt;
    }
  }

  lemma {:induction false} FindNothing(slots: seq<Slot>, key: string)
    ensures Find(slots, key).None? <==> forall s :: s in slots ==> s.key != key
  {
    if slots != [] { FindNothing(slots[1..], key); }
  }

  lemma {:induction false} FindAfterPurge(slots: seq<Slot>, now: int, key: string)
    requires Distinct(slots)
    ensures Find(Purge(slots, now), key) == At(Find(slots, key), now)
  {
    if slots != [] {
      var rest := slots[1..];
      FindAfterPurge(rest, now, key);
      if slots[0].key == key {
        forall s | s in rest ensures s.key != key {
          var i :| 0 <= i < |rest| && rest[i] == s;
          assert slots[i + 1] == s;
        }
        FindNothing(rest, key);
      }
    }
  }

  lemma {:induction false} FindAfterPut(slots: seq<Slot>, key: string, c: Counter, other: string)
    ensures Find(Put(slots, key, c), other) == if other == key then Some(c) else Find(slots, other)
  {
    if slots != [] && slots[0].key != key { FindAfterPut(slots[1..], key, c, other); }
  }

  // A stored key keeps its place.
  lemma {:induction false} PutOverwrites(slots: seq<Slot>, key: string, c: Counter) returns (i: nat)
    requires Find(slots, key).Some?
    ensures i < |slots| && slots[i] == Slot(key, Find(slots, key).value)
    ensures Put(slots, key, c) == slots[i := Slot(key, c)]
  {
    i := 0;
    if slots[0].key != key {
      var j := PutOverwrites(slots[1..], key, c);
      i := j + 1;
    }
  }

  // A new key goes last.
  lemma {:induction false} PutAppends(slots: seq<Slot>, key: string, c: Counter)
    requires Find(slots, key).None?
    ensures Put(slots, key, c) == slots + [Slot(key, c)]
  {
    if slots != [] { PutAppends(slots[1..], key, c); }
  }

  lemma ReplaceKeepsOrder(slots: seq<Slot>, i: nat, with: Slot, now: int, o: Options)
    requires Ordered(slots, now, o) && i < |slots| && Settled(with, now, o)
    requires with.key == slots[i].key && with.counter.resetAt == slots[i].counter.resetAt
    ensures Ordered(slots[i := with], now, o)
  {
  }

  lemma CountKeepsOrder(slots: seq<Slot>, key: string, more: Counter, now: int, o: Options)
    requires Ordered(slots, now, o) && Find(slots, key).Some?
    requires more.resetAt == Find(slots, key).value.resetAt
    ensures Ordered(Put(slots, key, more), now, o) && |Put(slots, key, more)| == |slots|
  {
    var i := PutOverwrites(slots, key, more);
    assert Settled(slots[i], now, o);
    ReplaceKeepsOrder(slots, i, Slot(key, more), now, o);
  }

  lemma OpenKeepsOrder(slots: seq<Slot>, key: string, now: int, o: Options)
    requires Ordered(slots, now, o) && Find(slots, key).None?
    ensures var r := Put(slots, key, Counter(1, now + o.windowSeconds));
            Ordered(r, now, o) && |r| == |slots| + 1
  {
    PutAppends(slots, key, Counter(1, now + o.windowSeconds));
    FindNothing(slots, key);
  }

  lemma PurgeKeepsOrdered(slots: seq<Slot>, now: int, later: int, o: Options)
    requires Ordered(slots, now, o) && now <= later
    ensures Ordered(Purge(slots, later), later, o) && |Purge(slots, later)| <= |slots|
  {
    PurgeKeepsSome(slots, later);
    PurgeKeepsDistinct(slots, later);
    PurgeKeepsSorted(slots, later);
  }

  lemma RoomKeepsOrder(slots: seq<Slot>, key: string, now: int, o: Options)
    requires Ordered(slots, now, o) && Find(slots, key).None?
    ensures var room := Room(slots, o.maxFallbackEntries);
            Ordered(room, now, o) && Find(room, key).None?
  {
  }

  // Insertion order stays the order of expiry.
  lemma ServedKeepsOrder(slots: seq<Slot>, r: Request, now: int, o: Options)
    requires Ordered(slots, now, o) && now <= r.now
    ensures Ordered(Served(slots, r, o).0, r.now, o)
  {
    var kept := Purge(slots, r.now);
    PurgeKeepsOrdered(slots, now, r.now, o);
    if Find(kept, r.key).Some? {
      var c := Find(kept, r.key).value;
      CountKeepsOrder(kept, r.key, c.(count := c.count + 1), r.now, o);
    } else {
      RoomKeepsOrder(kept, r.key, r.now, o);
      OpenKeepsOrder(Room(kept, o.maxFallbackEntries), r.key, r.now, o);
    }
  }

  // The entry pushed out is one that would have expired first.
  lemma EvictedExpiresFirst(slots: seq<Slot>, r: Request, now: int, o: Options)
    requires Ordered(slots, now, o) && Evicted(slots, r, o).Some?
    ensures var victim := Evicted(slots, r, o).value;
            && victim != r.key
            && Find(slots, victim).Some?
            && forall s :: s in Purge(slots, r.now) ==> Find(slots, victim).value.resetAt <= s.counter.resetAt
    ensures o.maxFallbackEntries <= |Purge(slots, r.now)|
  {
    var kept := Purge(slots, r.now);
    PurgeKeepsSome(slots, r.now);
    PurgeKeepsSorted(slots, r.now);
    FindAfterPurge(slots, r.now, kept[0].key);
    assert Find(kept, kept[0].key) == Some(kept[0].counter);
  }

  // What needs no order of time: one entry for each key, and no more entries than there is room for.
  predicate Tidy(slots: seq<Slot>, o: Options) {
    Distinct(slots) && (forall s :: s in slots ==> s.key != "") && Bounded(slots, o)
  }

  lemma PurgeKeepsTidy(slots: seq<Slot>, now: int, o: Options)
    requires Tidy(slots, o)
    ensures Tidy(Purge(slots, now), o)
  {
    PurgeKeepsSome(slots, now);
    PurgeKeepsDistinct(slots, now);
  }

  lemma PutKeepsTidy(slots: seq<Slot>, key: string, c: Counter, o: Options)
    requires Tidy(slots, o) && key != "" && (Find(slots, key).None? ==> |slots| < Max(1, o.maxFallbackEntries))
    ensures Tidy(Put(slots, key, c), o)
  {
    if Find(slots, key).Some? {
      var i := PutOverwrites(slots, key, c);
    } else {
      PutAppends(slots, key, c);
      FindNothing(slots, key);
    }
  }

  lemma RoomKeepsTidy(slots: seq<Slot>, key: string, o: Options)
    requires Tidy(slots, o) && Find(slots, key).None?
    ensures var room := Room(slots, o.maxFallbackEntries);
            Tidy(room, o) && Find(room, key).None? && |room| < Max(1, o.maxFallbackEntries)
  {
  }

  lemma ServedKeepsTidy(slots: seq<Slot>, r: Request, o: Options)
    requires Tidy(slots, o) && r.key != ""
    ensures Tidy(Served(slots, r, o).0, o)
  {
    var kept := Purge(slots, r.now);
    PurgeKeepsTidy(slots, r.now, o);
    if Find(kept, r.key).Some? {
      var c := Find(kept, r.key).value;
      PutKeepsTidy(kept, r.key, c.(count := c.count + 1), o);
    } else {
      RoomKeepsTidy(kept, r.key, o);
      PutKeepsTidy(Room(kept, o.maxFallbackEntries), r.key, Counter(1, r.now + o.windowSeconds), o);
    }
  }

  lemma {:induction false} StoreStaysTidy(slots: seq<Slot>, reqs: seq<Request>, o: Options)
    requires Tidy(slots, o) && Keyed(reqs)
    ensures Tidy(Run(slots, reqs, o).0, o)
    decreases reqs
  {
    if reqs != [] {
      assert reqs[0] in reqs && forall r :: r in reqs[1..] ==> r in reqs;
      ServedKeepsTidy(slots, reqs[0], o);
      StoreStaysTidy(Served(slots, reqs[0], o).0, reqs[1..], o);
    }
  }

  lemma {:induction false} StoreStaysSorted(slots: seq<Slot>, reqs: seq<Request>, now: int, o: Options)
    requires Ordered(slots, now, o) && InOrder(reqs, now)
    ensures Sorted(Run(slots, reqs, o).0)
    decreases reqs
  {
    if reqs != [] {
      ServedKeepsOrder(slots, reqs[0], now, o);
      StoreStaysSorted(Served(slots, reqs[0], o).0, reqs[1..], reqs[0].now, o);
    }
  }

  // From the empty store, whatever requests come, also out of order: a slow call to Redis that fails late falls back with
  // the time it began at. In order of time they also keep the store in order of expiry.
  lemma FallbackIsBounded(reqs: seq<Request>, start: int, o: Options)
    requires Keyed(reqs)
    ensures var left := Run([], reqs, o).0;
            && Distinct(left) && |left| <= Max(1, o.maxFallbackEntries)
            && (InOrder(reqs, start) ==> Sorted(left))
  {
    StoreStaysTidy([], reqs, o);
    if InOrder(reqs, start) { StoreStaysSorted([], reqs, start, o); }
  }

  // An empty key at the front is falsy and blocks the eviction, so the store outgrows its bound until that entry expires. The
  // middleware builds no such key.
  lemma EmptyKeyIsNotEvicted(slots: seq<Slot>, r: Request, o: Options)
    requires Find(Purge(slots, r.now), r.key) == None && Purge(slots, r.now) != [] && Purge(slots, r.now)[0].key == ""
    ensures |Served(slots, r, o).0| == |Purge(slots, r.now)| + 1 && Served(slots, r, o).0[0] == Purge(slots, r.now)[0]
  {
    PutAppends(Purge(slots, r.now), r.key, Counter(1, r.now + o.windowSeconds));
  }

  /******* The Redis script *******/

  type Redis = map<string, Counter>

  function Stored(db: Redis, key: string, now: int): Option<Counter> {
    At(if key in db then Some(db[key]) else None, now)
  }

  // Counters that never expire do not occur: the script sets the expiry in the same atomic run as the first INCR.
  function Incr(db: Redis, key: string, now: int): (Redis, nat) {
    match Stored(db, key, now)
    case Some(c) => (db[key := c.(count := c.count + 1)], c.count + 1)
    case None => (db[key := Counter(1, now)], 1)
  }

  // A time to live of zero or less deletes the key.
  function Expire(db: Redis, key: string, now: int, seconds: int): Redis {
    if key !in db then db
    else if seconds <= 0 then db - {key}
    else db[key := db[key].(resetAt := now + seconds)]
  }

  function Ttl(db: Redis, key: string, now: int): int {
    match Stored(db, key, now)
    case Some(c) => c.resetAt - now
    case None => -2
  }

  function Script(db: Redis, r: Request, o: Options): (Redis, nat, int) {
    var (counted, count) := Incr(db, r.key, r.now);
    var timed := if count == 1 then Expire(counted, r.key, r.now, o.windowSeconds) else counted;
    (timed, count, Ttl(timed, r.key, r.now))
  }

  function RedisRun(db: Redis, reqs: seq<Request>, o: Options): seq<Answer>
    decreases reqs
  {
    if reqs == [] then []
    else
      var (next, count, ttl) := Script(db, reqs[0], o);
      [Understood(count, ttl, reqs[0].now, o)] + RedisRun(next, reqs[1..], o)
  }
}
