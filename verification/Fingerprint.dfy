/** The canonical fingerprint of a booking request, and the string the migration backfilled for stored bookings. */
module Fingerprint {

  /******* trim, toLowerCase and toString(10) *******/

  predicate IsSpace(c: char) {
    c in {' ', '\t', '\n', '\U{000B}', '\U{000C}', '\r'}
  }

  function TrimStart(s: string): string {
    if s != "" && IsSpace(s[0]) then TrimStart(s[1..]) else s
  }

  function TrimEnd(s: string): string {
    if s != "" && IsSpace(s[|s| - 1]) then TrimEnd(s[..|s| - 1]) else s
  }

  function Trim(s: string): string {
    TrimEnd(TrimStart(s))
  }

  function LowerChar(c: char): char {
    if 'A' <= c <= 'Z' then (c as int - 'A' as int + 'a' as int) as char else c
  }

  function Lower(s: string): (l: string)
    ensures |l| == |s|
  {
    seq(|s|, i requires 0 <= i < |s| => LowerChar(s[i]))
  }

  function Digit(d: nat): char
    requires d < 10
  {
    ('0' as int + d) as char
  }

  function Decimal(n: nat): (s: string)
    ensures s != "" && ':' !in s
    decreases n
  {
    if n < 10 then [Digit(n)] else Decimal(n / 10) + [Digit(n % 10)]
  }

  /******* The fingerprint *******/

  function Join(user: string, event: string, quantity: string): string {
    "v1:" + user + ":" + event + ":" + quantity
  }

  function CreateBookingRequestFingerprint(userId: string, eventId: string, quantity: nat): string {
    Join(Lower(Trim(userId)), Lower(Trim(eventId)), Decimal(quantity))
  }

  // The UPDATE of the migration, on the text forms of the stored UUIDs.
  function Backfill(userId: string, eventId: string, quantity: nat): string {
    "v1:" + Lower(userId) + ":" + Lower(eventId) + ":" + Decimal(quantity)
  }

  /******* Injectivity *******/

  lemma {:induction false} DecimalInjective(m: nat, n: nat)
    requires Decimal(m) == Decimal(n)
    ensures m == n
    decreases m
  {
    var s := Decimal(m);
    assert s[|s| - 1] == Digit(m % 10) && s[|s| - 1] == Digit(n % 10);
    assert |s| == 1 <==> m < 10;
    assert |s| == 1 <==> n < 10;
    if 10 <= m && 10 <= n {
      assert s[..|s| - 1] == Decimal(m / 10) && s[..|s| - 1] == Decimal(n / 10);
      DecimalInjective(m / 10, n / 10);
    }
  }

  lemma FirstColon(a: string, x: string, b: string, y: string)
    requires ':' !in b && a + [':'] + x == b + [':'] + y
    ensures |b| <= |a|
  {
    var s := a + [':'] + x;
    assert s[|a|] == ':';
    assert forall i :: 0 <= i < |b| ==> s[i] == b[i];
  }

  // The first colon of a string splits it in one way only.
  lemma SplitUnique(a: string, x: string, b: string, y: string)
    requires ':' !in a && ':' !in b && a + [':'] + x == b + [':'] + y
    ensures a == b && x == y
  {
    FirstColon(a, x, b, y);
    FirstColon(b, y, a, x);
    var s := a + [':'] + x;
    assert s[..|a|] == a && s[..|b|] == b;
    assert s[|a| + 1..] == x && s[|b| + 1..] == y;
  }

  lemma JoinInjective(u: string, e: string, q: string, v: string, f: string, r: string)
    requires ':' !in u && ':' !in e && ':' !in v && ':' !in f
    requires Join(u, e, q) == Join(v, f, r)
    ensures u == v && e == f && q == r
  {
    var p: string := "v1:";
    assert Join(u, e, q) == p + (u + [':'] + (e + [':'] + q));
    assert Join(v, f, r) == p + (v + [':'] + (f + [':'] + r));
    assert Join(u, e, q)[3..] == u + [':'] + (e + [':'] + q);
    assert Join(v, f, r)[3..] == v + [':'] + (f + [':'] + r);
    SplitUnique(u, e + [':'] + q, v, f + [':'] + r);
    SplitUnique(e, q, f, r);
  }

  lemma {:induction false} TrimKeepsColonFree(s: string)
    requires ':' !in s
    ensures ':' !in TrimStart(s) && ':' !in TrimEnd(s)
    decreases s
  {
    if s != "" {
      assert ':' !in s[1..] && ':' !in s[..|s| - 1];
      TrimKeepsColonFree(s[1..]);
      TrimKeepsColonFree(s[..|s| - 1]);
    }
  }

  lemma CanonicalIsColonFree(s: string)
    requires ':' !in s
    ensures ':' !in Lower(Trim(s))
  {
    TrimKeepsColonFree(s);
    TrimKeepsColonFree(TrimStart(s));
    forall i | 0 <= i < |Trim(s)| ensures LowerChar(Trim(s)[i]) != ':' {
      assert Trim(s)[i] in Trim(s);
    }
  }

  /******* Which ids are the same *******/

  // White space of ASCII.
  predicate Blank(s: string) {
    forall i :: 0 <= i < |s| ==> s[i] as int == 32 || 9 <= s[i] as int <= 13
  }

  // The string with the white space around it taken off.
  ghost predicate IsCore(s: string, core: string) {
    && (exists before, after :: Blank(before) && Blank(after) && s == before + core + after)
    && (core == "" || (!Blank([core[0]]) && !Blank([core[|core| - 1]])))
  }

  // Capital letters of ASCII come 32 before the small ones.
  predicate SameLetter(c: char, d: char) {
    || c == d
    || ('A' <= c <= 'Z' && d as int == c as int + 32)
    || ('A' <= d <= 'Z' && c as int == d as int + 32)
  }

  predicate SameButForCase(s: string, t: string) {
    |s| == |t| && forall i :: 0 <= i < |s| ==> SameLetter(s[i], t[i])
  }

  ghost predicate SameId(s: string, t: string) {
    exists a, b :: IsCore(s, a) && IsCore(t, b) && SameButForCase(a, b)
  }

  lemma SpaceIsBlank(c: char)
    ensures IsSpace(c) <==> Blank([c])
  {
    assert [c][0] == c;
  }

  // Lower case has no capitals, keeps everything else, and is the same letters.
  lemma LowerIsExact(s: string)
    ensures SameButForCase(s, Lower(s))
    ensures forall i :: 0 <= i < |s| ==> !('A' <= Lower(s)[i] <= 'Z')
    ensures forall i :: 0 <= i < |s| && !('A' <= s[i] <= 'Z') ==> Lower(s)[i] == s[i]
  {
  }

  lemma LowerSame(s: string, t: string)
    ensures Lower(s) == Lower(t) <==> SameButForCase(s, t)
  {
    if Lower(s) == Lower(t) {
      forall i | 0 <= i < |s| ensures SameLetter(s[i], t[i]) { assert LowerChar(s[i]) == Lower(s)[i] == LowerChar(t[i]); }
    }
  }

  lemma {:induction false} TrimStartSkips(before: string, s: string)
    requires Blank(before)
    ensures TrimStart(before + s) == TrimStart(s)
    decreases before
  {
    if before == "" {
      assert before + s == s;
    } else {
      assert (before + s)[1..] == before[1..] + s;
      assert Blank([before[0]]) && Blank(before[1..]);
      SpaceIsBlank(before[0]);
      TrimStartSkips(before[1..], s);
    }
  }

  lemma {:induction false} TrimEndSkips(s: string, after: string)
    requires Blank(after)
    ensures TrimEnd(s + after) == TrimEnd(s)
    decreases after
  {
    if after == "" {
      assert s + after == s;
    } else {
      var n := |after| - 1;
      assert (s + after)[..|s + after| - 1] == s + after[..n];
      assert Blank([after[n]]) && Blank(after[..n]);
      SpaceIsBlank(after[n]);
      TrimEndSkips(s, after[..n]);
    }
  }

  lemma {:induction false} TrimStartSplits(s: string) returns (before: string)
    ensures Blank(before) && s == before + TrimStart(s)
    decreases s
  {
    before := "";
    if s != "" && IsSpace(s[0]) {
      SpaceIsBlank(s[0]);
      var rest := TrimStartSplits(s[1..]);
      before := [s[0]] + rest;
      assert Blank([s[0]]) && [s[0]][0] == s[0];
    }
  }

  lemma {:induction false} TrimEndSplits(s: string) returns (after: string)
    ensures Blank(after) && s == TrimEnd(s) + after
    decreases s
  {
    after := "";
    if s != "" && IsSpace(s[|s| - 1]) {
      SpaceIsBlank(s[|s| - 1]);
      var rest := TrimEndSplits(s[..|s| - 1]);
      after := rest + [s[|s| - 1]];
      assert [s[|s| - 1]][0] == s[|s| - 1];
    }
  }

  lemma TrimIsCore(s: string)
    ensures IsCore(s, Trim(s))
  {
    var before := TrimStartSplits(s);
    var after := TrimEndSplits(TrimStart(s));
    assert s == before + Trim(s) + after;
    TrimStartsClean(s);
    TrimEndsClean(TrimStart(s));
    TrimEndKeepsStart(TrimStart(s));
    if Trim(s) != "" {
      SpaceIsBlank(Trim(s)[0]);
      SpaceIsBlank(Trim(s)[|Trim(s)| - 1]);
    }
  }

  // There is one core only, and trimming finds it.
  lemma CoreIsTrim(s: string, core: string)
    requires IsCore(s, core)
    ensures core == Trim(s)
  {
    var before, after :| Blank(before) && Blank(after) && s == before + core + after;
    assert s == before + (core + after);
    TrimStartSkips(before, core + after);
    if core == "" {
      assert core + after == after + "";
      TrimStartSkips(after, "");
    } else {
      CleanCoreIsTrim(core, after);
    }
  }

  lemma CleanCoreIsTrim(core: string, after: string)
    requires core != "" && !Blank([core[0]]) && !Blank([core[|core| - 1]]) && Blank(after)
    ensures Trim(core + after) == core
  {
    SpaceIsBlank(core[0]);
    SpaceIsBlank(core[|core| - 1]);
    assert (core + after)[0] == core[0];
    assert TrimStart(core + after) == core + after;
    TrimEndSkips(core, after);
  }

  lemma SameIdIsExact(s: string, t: string)
    ensures Lower(Trim(s)) == Lower(Trim(t)) <==> SameId(s, t)
  {
    TrimIsCore(s);
    TrimIsCore(t);
    LowerSame(Trim(s), Trim(t));
    if a, b :| IsCore(s, a) && IsCore(t, b) && SameButForCase(a, b) {
      CoreIsTrim(s, a);
      CoreIsTrim(t, b);
    }
  }

  // Same fingerprint exactly when the ids are the same but for the case of letters and white space around them, and the
  // quantities are equal.
  lemma FingerprintIsExact(u: string, e: string, q: nat, v: string, f: string, r: nat)
    requires ':' !in u && ':' !in e && ':' !in v && ':' !in f
    ensures CreateBookingRequestFingerprint(u, e, q) == CreateBookingRequestFingerprint(v, f, r)
       <==> SameId(u, v) && SameId(e, f) && q == r
  {
    CanonicalIsColonFree(u);
    CanonicalIsColonFree(e);
    CanonicalIsColonFree(v);
    CanonicalIsColonFree(f);
    SameIdIsExact(u, v);
    SameIdIsExact(e, f);
    if CreateBookingRequestFingerprint(u, e, q) == CreateBookingRequestFingerprint(v, f, r) {
      JoinInjective(Lower(Trim(u)), Lower(Trim(e)), Decimal(q), Lower(Trim(v)), Lower(Trim(f)), Decimal(r));
      DecimalInjective(q, r);
    }
  }

  // The number that a string of digits stands for.
  function ValueOf(s: string): int {
    if s == "" then 0 else 10 * ValueOf(s[..|s| - 1]) + (s[|s| - 1] as int - 48)
  }

  // The quantity is written in decimal digits, without a leading zero.
  lemma {:induction false} DecimalIsExact(n: nat)
    ensures ValueOf(Decimal(n)) == n
    ensures forall i :: 0 <= i < |Decimal(n)| ==> '0' <= Decimal(n)[i] <= '9'
    ensures n > 0 ==> Decimal(n)[0] != '0'
    decreases n
  {
    if n < 10 {
      assert Decimal(n)[..0] == "";
    } else {
      DecimalIsExact(n / 10);
      assert Decimal(n)[..|Decimal(n)| - 1] == Decimal(n / 10);
    }
  }

  // The version, the ids in lower case without the white space around them, and the quantity, each after a colon.
  lemma FingerprintLayout(u: string, e: string, q: nat, a: string, b: string)
    requires IsCore(u, a) && IsCore(e, b)
    ensures CreateBookingRequestFingerprint(u, e, q) == "v1:" + Lower(a) + ":" + Lower(b) + ":" + Decimal(q)
  {
    CoreIsTrim(u, a);
    CoreIsTrim(e, b);
  }

  // A colon in an id can hide where one id ends.
  lemma ColonsCollide()
    ensures CreateBookingRequestFingerprint("a:b", "c", 1) == CreateBookingRequestFingerprint("a", "b:c", 1)
  {
  }

  // Ids without surrounding white space, as a UUID column prints them, were backfilled with the very same string.
  lemma BackfillAgrees(u: string, e: string, q: nat)
    requires Trim(u) == u && Trim(e) == e
    ensures Backfill(u, e, q) == CreateBookingRequestFingerprint(u, e, q)
  {
  }

  lemma {:induction false} TrimIdempotent(s: string)
    ensures Trim(Trim(s)) == Trim(s)
  {
    TrimEndsClean(TrimStart(s));
    TrimStartsClean(s);
    TrimEndKeepsStart(TrimStart(s));
  }

  lemma {:induction false} TrimStartsClean(s: string)
    ensures TrimStart(s) == "" || !IsSpace(TrimStart(s)[0])
    decreases s
  {
    if s != "" { TrimStartsClean(s[1..]); }
  }

  lemma {:induction false} TrimEndsClean(s: string)
    ensures TrimEnd(s) == "" || !IsSpace(TrimEnd(s)[|TrimEnd(s)| - 1])
    decreases s
  {
    if s != "" { TrimEndsClean(s[..|s| - 1]); }
  }

  lemma {:induction false} TrimEndKeepsStart(s: string)
    ensures TrimEnd(s) == "" || TrimEnd(s)[0] == s[0]
    decreases s
  {
    if s != "" { TrimEndKeepsStart(s[..|s| - 1]); }
  }
}
