/**
 The limiter when Redis comes and goes. Each request is answered by the script or by the store; a call that fails can have
 been counted by the script all the same.
 */
module RateLimiterSwitching {
  import opened Common
  import opened RateLimiter
  import opened RateLimiterTheorems

  datatype Route = ByScript | ByStore(counted: bool)

  predicate ReachesScript(route: Route) {
    route.ByScript? || route.counted
  }

  function Mixed(db: Redis, slots: seq<Slot>, reqs: seq<Request>, routes: seq<Route>, o: Options): seq<Answer>
    requires |routes| == |reqs|
    decreases reqs
  {
    if reqs == [] then []
    else
      var (next, count, ttl) := Script(db, reqs[0], o);
      var (left, a) := Served(slots, reqs[0], o);
      [if routes[0].ByScript? then Understood(count, ttl, reqs[0].now, o) else a]
      + Mixed(if ReachesScript(routes[0]) then next else db, if routes[0].ByStore? then left else slots,
              reqs[1..], routes[1..], o)
  }

  predicate Counts(route: Route, script: bool) {
    if script then ReachesScript(route) else route.ByStore?
  }

  // The requests that the script counts, or those that the store counts.
  function Part(reqs: seq<Request>, routes: seq<Route>, script: bool): seq<Request>
    requires |routes| == |reqs|
  {
    if reqs == [] then []
    else if Counts(routes[0], script) then [reqs[0]] + Part(reqs[1..], routes[1..], script)
    else Part(reqs[1..], routes[1..], script)
  }

  // How many requests of the key pass in the interval [from, from + window).
  function PassedOf(reqs: seq<Request>, answers: seq<Answer>, key: string, o: Options, from: int): nat {
    Passed(TimesOf(reqs, key), AnswersOf(reqs, answers, key), o.maxRequests, from, o.windowSeconds)
  }

  function Passes(r: Request, a: Answer, key: string, o: Options, from: int): nat {
    if r.key == key && from <= r.now < from + o.windowSeconds && a.requests <= o.maxRequests then 1 else 0
  }

  lemma PassedFirst(reqs: seq<Request>, answers: seq<Answer>, key: string, o: Options, from: int)
    requires reqs != [] && answers != []
    ensures PassedOf(reqs, answers, key, o, from)
         == Passes(reqs[0], answers[0], key, o, from) + PassedOf(reqs[1..], answers[1..], key, o, from)
  {
    var times, later := TimesOf(reqs, key), TimesOf(reqs[1..], key);
    var all, rest := AnswersOf(reqs, answers, key), AnswersOf(reqs[1..], answers[1..], key);
    if reqs[0].key == key {
      assert times[1..] == later && all[1..] == rest;
    } else {
      assert times == later && all == rest;
    }
  }

  lemma ScriptFirst(db: Redis, r: Request, rest: seq<Request>, key: string, o: Options, from: int)
    ensures var (next, count, ttl) := Script(db, r, o);
            PassedOf([r] + rest, RedisRun(db, [r] + rest, o), key, o, from)
            == Passes(r, Understood(count, ttl, r.now, o), key, o, from) + PassedOf(rest, RedisRun(next, rest, o), key, o, from)
  {
    var reqs := [r] + rest;
    var next := Script(db, r, o).0;
    assert reqs[1..] == rest && RedisRun(db, reqs, o)[1..] == RedisRun(next, rest, o);
    PassedFirst(reqs, RedisRun(db, reqs, o), key, o, from);
  }

  lemma StoreFirst(slots: seq<Slot>, r: Request, rest: seq<Request>, key: string, o: Options, from: int)
    ensures var (left, a) := Served(slots, r, o);
            PassedOf([r] + rest, Run(slots, [r] + rest, o).1, key, o, from)
            == Passes(r, a, key, o, from) + PassedOf(rest, Run(left, rest, o).1, key, o, from)
  {
    var reqs := [r] + rest;
    var left := Served(slots, r, o).0;
    assert reqs[1..] == rest && Run(slots, reqs, o).1[1..] == Run(left, rest, o).1;
    PassedFirst(reqs, Run(slots, reqs, o).1, key, o, from);
  }

  lemma MixedFirst(db: Redis, slots: seq<Slot>, reqs: seq<Request>, routes: seq<Route>, key: string, o: Options, from: int)
    requires |routes| == |reqs| && reqs != []
    ensures var (next, count, ttl) := Script(db, reqs[0], o);
            var (left, a) := Served(slots, reqs[0], o);
            PassedOf(reqs, Mixed(db, slots, reqs, routes, o), key, o, from)
            == Passes(reqs[0], if routes[0].ByScript? then Understood(count, ttl, reqs[0].now, o) else a, key, o, from)
               + PassedOf(reqs[1..], Mixed(if ReachesScript(routes[0]) then next else db,
                                           if routes[0].ByStore? then left else slots, reqs[1..], routes[1..], o), key, o, from)
  {
    var (next, count, ttl) := Script(db, reqs[0], o);
    var (left, a) := Served(slots, reqs[0], o);
    var rest := Mixed(if ReachesScript(routes[0]) then next else db, if routes[0].ByStore? then left else slots,
                      reqs[1..], routes[1..], o);
    assert Mixed(db, slots, reqs, routes, o)[1..] == rest;
    PassedFirst(reqs, Mixed(db, slots, reqs, routes, o), key, o, from);
  }

  function ScriptPasses(db: Redis, reqs: seq<Request>, routes: seq<Route>, key: string, o: Options, from: int): nat
    requires |routes| == |reqs|
  {
    var part := Part(reqs, routes, true);
    PassedOf(part, RedisRun(db, part, o), key, o, from)
  }

  function StorePasses(slots: seq<Slot>, reqs: seq<Request>, routes: seq<Route>, key: string, o: Options, from: int): nat
    requires |routes| == |reqs|
  {
    var part := Part(reqs, routes, false);
    PassedOf(part, Run(slots, part, o).1, key, o, from)
  }

  lemma ScriptPart(db: Redis, reqs: seq<Request>, routes: seq<Route>, key: string, o: Options, from: int)
    requires |routes| == |reqs| && reqs != []
    ensures var (next, count, ttl) := Script(db, reqs[0], o);
            ScriptPasses(db, reqs, routes, key, o, from)
            == if ReachesScript(routes[0])
               then Passes(reqs[0], Understood(count, ttl, reqs[0].now, o), key, o, from)
                    + ScriptPasses(next, reqs[1..], routes[1..], key, o, from)
               else ScriptPasses(db, reqs[1..], routes[1..], key, o, from)
  {
    if ReachesScript(routes[0]) { ScriptFirst(db, reqs[0], Part(reqs[1..], routes[1..], true), key, o, from); }
  }

  lemma StorePart(slots: seq<Slot>, reqs: seq<Request>, routes: seq<Route>, key: string, o: Options, from: int)
    requires |routes| == |reqs| && reqs != []
    ensures var (left, a) := Served(slots, reqs[0], o);
            StorePasses(slots, reqs, routes, key, o, from)
            == if routes[0].ByStore?
               then Passes(reqs[0], a, key, o, from) + StorePasses(left, reqs[1..], routes[1..], key, o, from)
               else StorePasses(slots, reqs[1..], routes[1..], key, o, from)
  {
    if routes[0].ByStore? { StoreFirst(slots, reqs[0], Part(reqs[1..], routes[1..], false), key, o, from); }
  }

  // What passes is what passes of the two runs; less if the script counts calls that fail.
  lemma {:induction false} MixedPasses(db: Redis, slots: seq<Slot>, reqs: seq<Request>, routes: seq<Route>, key: string,
                                       o: Options, from: int)
    requires |routes| == |reqs|
    ensures var apart := ScriptPasses(db, reqs, routes, key, o, from) + StorePasses(slots, reqs, routes, key, o, from);
            var mixed := PassedOf(reqs, Mixed(db, slots, reqs, routes, o), key, o, from);
            mixed <= apart && ((forall x :: x in routes ==> x != ByStore(true)) ==> mixed == apart)
    decreases reqs
  {
    if reqs != [] {
      var rest, later := reqs[1..], routes[1..];
      var (next, count, ttl) := Script(db, reqs[0], o);
      var (left, a) := Served(slots, reqs[0], o);
      MixedFirst(db, slots, reqs, routes, key, o, from);
      MixedPasses(if ReachesScript(routes[0]) then next else db, if routes[0].ByStore? then left else slots,
                  rest, later, key, o, from);
      ScriptPart(db, reqs, routes, key, o, from);
      StorePart(slots, reqs, routes, key, o, from);
      assert routes[0] in routes && forall x :: x in later ==> x in routes;
    }
  }

  lemma {:induction false} PartInOrder(reqs: seq<Request>, routes: seq<Route>, now: int, script: bool)
    requires |routes| == |reqs| && InOrder(reqs, now)
    ensures InOrder(Part(reqs, routes, script), now)
    decreases reqs
  {
    if reqs != [] {
      var rest := Part(reqs[1..], routes[1..], script);
      PartInOrder(reqs[1..], routes[1..], reqs[0].now, script);
      assert ([reqs[0]] + rest)[1..] == rest;
      OrderSooner(rest, reqs[0].now, now);
    }
  }

  lemma OrderSooner(reqs: seq<Request>, now: int, sooner: int)
    requires InOrder(reqs, now) && sooner <= now
    ensures InOrder(reqs, sooner)
  {
  }

  lemma {:induction false} NothingPassesInNoTime(times: seq<int>, answers: seq<Answer>, max: int, from: int, window: int)
    requires window <= 0
    ensures Passed(times, answers, max, from, window) == 0
    decreases times
  {
    if times != [] && answers != [] { NothingPassesInNoTime(times[1..], answers[1..], max, from, window); }
  }

  // With Redis there is no eviction: any interval as long as the window lets fewer than twice the maximum through.
  lemma ScriptBound(reqs: seq<Request>, start: int, o: Options, key: string, from: int)
    requires InOrder(reqs, start)
    ensures PassedOf(reqs, RedisRun(map[], reqs, o), key, o, from) <= Max(0, 2 * o.maxRequests - 1)
  {
    var times := TimesOf(reqs, key);
    if 1 <= o.windowSeconds {
      RedisIsAWindow(map[], reqs, start, o, key);
      AllHitsAreHits(None, times, o.windowSeconds);
      HitsAreTimes([], reqs, o, key);
      EventsInTime([], reqs, start, o, key);
      HitsStayInTime(EventsOf([], reqs, o, key), start);
      WindowBound(None, AllHits(times), o.windowSeconds, o.maxRequests, from, start);
      NothingAgain(times, o.maxRequests, from, from + o.windowSeconds);
    } else {
      NothingPassesInNoTime(times, AnswersOf(reqs, RedisRun(map[], reqs, o), key), o.maxRequests, from, o.windowSeconds);
    }
  }

  // Nor is there a second allowance in one window.
  lemma ScriptLetsMaximumThrough(reqs: seq<Request>, start: int, o: Options, key: string, resetAt: int)
    requires InOrder(reqs, start) && 1 <= o.windowSeconds
    ensures PassedBefore(AnswersOf(reqs, RedisRun(map[], reqs, o), key), o.maxRequests, resetAt) <= Max(0, o.maxRequests)
  {
    var times := TimesOf(reqs, key);
    RedisIsAWindow(map[], reqs, start, o, key);
    AllHitsAreHits(None, times, o.windowSeconds);
    HitsAreTimes([], reqs, o, key);
    EventsInTime([], reqs, start, o, key);
    HitsStayInTime(EventsOf([], reqs, o, key), start);
    OneWindowBound(None, AllHits(times), o.windowSeconds, o.maxRequests, resetAt, start);
    NothingAgain(times, o.maxRequests, resetAt - o.windowSeconds, resetAt - o.windowSeconds + 1);
  }

  // However Redis comes and goes: at most what the two let through together.
  lemma SwitchingBound(reqs: seq<Request>, routes: seq<Route>, start: int, o: Options, key: string, from: int)
    requires InOrder(reqs, start) && |routes| == |reqs|
    ensures PassedOf(reqs, Mixed(map[], [], reqs, routes, o), key, o, from)
         <= 2 * Max(0, 2 * o.maxRequests - 1)
            + Again(EventsOf([], Part(reqs, routes, false), o, key), o.maxRequests, from, from + o.windowSeconds)
  {
    PartInOrder(reqs, routes, start, true);
    PartInOrder(reqs, routes, start, false);
    MixedPasses(map[], [], reqs, routes, key, o, from);
    ScriptBound(Part(reqs, routes, true), start, o, key, from);
    FixedWindowBound(Part(reqs, routes, false), start, o, key, from);
  }

  /******* The bound is reached *******/

  function Doubled(reqs: seq<Request>): seq<Request> {
    if reqs == [] then [] else [reqs[0], reqs[0]] + Doubled(reqs[1..])
  }

  function InTurns(n: nat): (routes: seq<Route>)
    ensures |routes| == 2 * n && forall x :: x in routes ==> x != ByStore(true)
  {
    if n == 0 then [] else [ByScript, ByStore(false)] + InTurns(n - 1)
  }

  lemma {:induction false} DoubledInOrder(reqs: seq<Request>, now: int)
    requires InOrder(reqs, now)
    ensures InOrder(Doubled(reqs), now) && |Doubled(reqs)| == 2 * |reqs|
    ensures forall r :: r in Doubled(reqs) ==> r in reqs
    decreases reqs
  {
    if reqs != [] {
      var twice, rest := Doubled(reqs), reqs[1..];
      DoubledInOrder(rest, reqs[0].now);
      assert twice[1..] == [reqs[0]] + Doubled(rest) && twice[1..][1..] == Doubled(rest);
      assert forall r :: r in rest ==> r in reqs;
    }
  }

  // Both get every request once.
  lemma {:induction false} DoubledPart(reqs: seq<Request>, script: bool)
    requires |Doubled(reqs)| == 2 * |reqs|
    ensures Part(Doubled(reqs), InTurns(|reqs|), script) == reqs
    decreases reqs
  {
    if reqs != [] {
      var twice, routes, rest := Doubled(reqs), InTurns(|reqs|), reqs[1..];
      assert twice[1..] == [reqs[0]] + Doubled(rest) && twice[1..][1..] == Doubled(rest);
      assert routes[1..] == [ByStore(false)] + InTurns(|rest|) && routes[1..][1..] == InTurns(|rest|);
      DoubledPart(rest, script);
      assert [reqs[0]] + rest == reqs;
    }
  }

  ghost predicate ReachesTwice(o: Options, key: string, reqs: seq<Request>, routes: seq<Route>, from: int) {
    && InOrder(reqs, 0) && Keyed(reqs) && |routes| == |reqs|
    && PassedOf(reqs, Mixed(map[], [], reqs, routes, o), key, o, from) == 2 * (2 * o.maxRequests - 1)
  }

  // Some requests that are answered in turns reach that sum.
  lemma SwitchingBoundIsReached(o: Options, key: string)
    requires 2 <= o.windowSeconds && 1 <= o.maxRequests && key != ""
    ensures exists reqs, routes, from :: ReachesTwice(o, key, reqs, routes, from)
  {
    var worst, from := Worst(o.windowSeconds, o.maxRequests), o.windowSeconds - 1;
    var reqs := Requests(key, worst);
    AscendingInOrder(key, worst, 0);
    AloneIsHit([], key, worst, o);
    FallbackIsAWindow([], reqs, 0, o, key);
    RedisIsAWindow(map[], reqs, 0, o, key);
    AllHitsAreHits(None, worst, o.windowSeconds);
    WorstPasses(o.windowSeconds, o.maxRequests);
    DoubledInOrder(reqs, 0);
    DoubledPart(reqs, true);
    DoubledPart(reqs, false);
    MixedPasses(map[], [], Doubled(reqs), InTurns(|reqs|), key, o, from);
    assert ReachesTwice(o, key, Doubled(reqs), InTurns(|reqs|), from);
  }
}
