/** The login rate limiter of local_login: attempts for one key, one after the other, against
    a positive clock that never runs backwards. */
module RateLimiter {
  import opened Options
  import opened Sequences

  const MaxFailures: nat := 5
  const Window: real := 300.0

  /** The value stored in `_FAILURES` for a key, if any. */
  datatype Failures = Failures(count: nat, first: real)

  /** One login attempt: the clock readings of `_rate_limited` and of `_record_failure` (its
      test, then its assignment), and whether the password was right. */
  datatype Attempt = Attempt(asked: real, tested: real, marked: real, right: bool)

  datatype Verdict = TooMany | Wrong | Right

  function Stored(f: Option<Failures>): Failures {
    f.GetOr(Failures(0, 0.0))
  }

  predicate RateLimited(f: Option<Failures>, now: real) {
    Stored(f).count >= MaxFailures && now - Stored(f).first < Window
  }

  function RecordFailure(f: Option<Failures>, tested: real, marked: real): Failures {
    var s := if tested - Stored(f).first >= Window then Failures(0, marked) else Stored(f);
    Failures(s.count + 1, if s.first != 0.0 then s.first else marked)
  }

  class LoginLimiter {
    var failures: map<string, Failures>

    function Of(key: string): Option<Failures>
      reads this
    {
      if key in failures then Some(failures[key]) else None
    }

    constructor ()
      ensures failures == map[]
    {
      failures := map[];
    }

    method IsLimited(key: string, now: real) returns (limited: bool)
      ensures limited <==> RateLimited(Of(key), now)
    {
      var entry := if key in failures then failures[key] else Failures(0, 0.0);
      limited := entry.count >= MaxFailures && now - entry.first < Window;
    }

    method Record(key: string, tested: real, marked: real)
      modifies this
      ensures failures == old(failures)[key := RecordFailure(old(Of(key)), tested, marked)]
    {
      var entry := if key in failures then failures[key] else Failures(0, 0.0);
      var count, first := entry.count, entry.first;
      if tested - first >= Window {
        count, first := 0, marked;
      }
      failures := failures[key := Failures(count + 1, if first != 0.0 then first else marked)];
    }

    method Clear(key: string)
      modifies this
      ensures failures == old(failures) - {key}
    {
      failures := failures - {key};
    }

    /** `local_login`'s use of the limiter. */
    method Login(key: string, a: Attempt) returns (verdict: Verdict)
      modifies this
      ensures verdict == Judge(old(Of(key)), a)
      ensures Of(key) == Next(old(Of(key)), a)
      ensures forall k :: k != key ==> Of(k) == old(Of(k))
    {
      var limited := IsLimited(key, a.asked);
      if limited {
        return TooMany;
      }
      if !a.right {
        Record(key, a.tested, a.marked);
        return Wrong;
      }
      Clear(key);
      verdict := Right;
    }
  }

  function Judge(f: Option<Failures>, a: Attempt): Verdict {
    if RateLimited(f, a.asked) then TooMany else if a.right then Right else Wrong
  }

  function Next(f: Option<Failures>, a: Attempt): Option<Failures> {
    match Judge(f, a)
    case TooMany => f
    case Wrong => Some(RecordFailure(f, a.tested, a.marked))
    case Right => None
  }

  /** What a login attempt comes to, in terms of the entry and the clock alone. Five failures in
      a window that is still open turn it away, whatever the password, and leave the entry as it
      is. Otherwise it is let in iff the password is right, which clears the entry; a wrong one
      adds to an open window or opens a new one. */
  lemma AttemptMeans(f: Option<Failures>, a: Attempt)
    requires f.Some? ==> f.value.first > 0.0
    ensures f.Some? && f.value.count >= 5 && a.asked - f.value.first < 300.0 ==> Judge(f, a) == TooMany && Next(f, a) == f
    ensures f.None? || f.value.count < 5 || a.asked - f.value.first >= 300.0 ==>
              && Judge(f, a) == (if a.right then Right else Wrong)
              && (a.right ==> Next(f, a) == None)
              && (!a.right && f.Some? && a.tested - f.value.first < 300.0 ==>
                    Next(f, a) == Some(Failures(f.value.count + 1, f.value.first)))
              && (!a.right && (f.None? || a.tested - f.value.first >= 300.0) ==> Next(f, a) == Some(Failures(1, a.marked)))
  {
  }

  /** The answer tells whether the password was right. */
  predicate Telling(f: Option<Failures>, a: Attempt) {
    Judge(f, a.(right := true)) != Judge(f, a.(right := false))
  }

  /** The clock: positive, and never backwards, within an attempt and from one to the next. */
  predicate Clocked(now: real, attempts: seq<Attempt>)
    decreases attempts
  {
    0.0 < now &&
    (attempts == [] ||
     (now <= attempts[0].asked <= attempts[0].tested <= attempts[0].marked && Clocked(attempts[0].marked, attempts[1..])))
  }

  /** A key's entry, and the times of the guesses since it was last cleared: of every attempt
      whose answer could tell a right password from a wrong one. */
  datatype Log = Log(entry: Option<Failures>, times: seq<real>)

  const Empty: Log := Log(None, [])

  function Extend(l: Log, a: Attempt): Log {
    if Judge(l.entry, a).Right? then Empty
    else Log(Next(l.entry, a), if Telling(l.entry, a) then l.times + [a.tested] else l.times)
  }

  function After(l: Log, attempts: seq<Attempt>): Log
    decreases attempts
  {
    if attempts == [] then l else After(Extend(l, attempts[0]), attempts[1..])
  }

  // ---- the failures, grouped by the counting window they fall into ----------------------

  /** `first` is the start the limiter stored; the failures are timed by the test. */
  datatype Span = Span(first: real, times: seq<real>)

  ghost predicate IsWindow(w: Span) {
    && 0.0 < w.first
    && 1 <= |w.times| <= MaxFailures
    && w.times[0] <= w.first
    && forall i :: 1 <= i < |w.times| ==> w.first <= w.times[i] < w.first + Window
  }

  /** Windows follow one another at a distance of at least the window length. */
  ghost predicate AreWindows(ws: seq<Span>) {
    && (forall k :: 0 <= k < |ws| ==> IsWindow(ws[k]))
    && (forall k :: 1 <= k < |ws| ==> Follows(ws, k))
  }

  ghost predicate Follows(ws: seq<Span>, k: nat)
    requires 1 <= k < |ws|
  {
    |ws[k].times| > 0 && ws[k - 1].first + Window <= ws[k].times[0]
  }

  function Flatten(ws: seq<Span>): seq<real> {
    if ws == [] then [] else Flatten(ws[..|ws| - 1]) + ws[|ws| - 1].times
  }

  /** The log's failures are those of the windows, and its entry describes the last one. */
  ghost predicate Groups(l: Log, ws: seq<Span>, now: real) {
    && AreWindows(ws) && l.times == Flatten(ws)
    && l.entry == (if ws == [] then None else Some(Failures(|ws[|ws| - 1].times|, ws[|ws| - 1].first)))
    && (ws != [] ==> ws[|ws| - 1].first <= now)
  }

  /** The failure opens a new window. */
  lemma OpenGroups(l: Log, ws: seq<Span>, now: real, a: Attempt)
    requires Groups(l, ws, now) && 0.0 < now <= a.asked <= a.tested <= a.marked
    requires Judge(l.entry, a).Wrong? && (ws == [] || a.tested - ws[|ws| - 1].first >= Window)
    ensures Groups(Extend(l, a), ws + [Span(a.marked, [a.tested])], a.marked)
  {
    var w := Span(a.marked, [a.tested]);
    assert IsWindow(w);
    AnotherWindow(ws, w);
  }

  lemma AnotherWindow(ws: seq<Span>, w: Span)
    requires AreWindows(ws) && IsWindow(w) && (ws == [] || ws[|ws| - 1].first + Window <= w.times[0])
    ensures AreWindows(ws + [w]) && Flatten(ws + [w]) == Flatten(ws) + w.times
  {
    var all := ws + [w];
    assert all[..|ws|] == ws;
    forall k | 0 <= k < |all| ensures IsWindow(all[k]) {
      if k < |ws| { assert all[k] == ws[k] && IsWindow(ws[k]); }
    }
    forall k | 1 <= k < |all| ensures Follows(all, k) {
      FollowsOn(ws, w, k);
    }
  }

  lemma FollowsOn(ws: seq<Span>, w: Span, k: nat)
    requires AreWindows(ws) && IsWindow(w) && 1 <= k <= |ws| && ws[|ws| - 1].first + Window <= w.times[0]
    ensures Follows(ws + [w], k)
  {
    if k < |ws| { assert Follows(ws, k); }
  }

  /** The failure counts towards the last window. */
  lemma CountGroups(l: Log, ws: seq<Span>, now: real, a: Attempt)
    requires Groups(l, ws, now) && 0.0 < now <= a.asked <= a.tested <= a.marked
    requires Judge(l.entry, a).Wrong? && ws != [] && a.tested - ws[|ws| - 1].first < Window
    ensures var last := ws[|ws| - 1];
            Groups(Extend(l, a), ws[|ws| - 1 := Span(last.first, last.times + [a.tested])], a.marked)
  {
    var last := ws[|ws| - 1];
    assert IsWindow(last);
    assert IsWindow(Span(last.first, last.times + [a.tested]));
    LongerWindow(ws, last.times + [a.tested]);
    Assoc(Flatten(ws[..|ws| - 1]), last.times, [a.tested]);
  }

  lemma LongerWindow(ws: seq<Span>, times: seq<real>)
    requires ws != [] && AreWindows(ws) && IsWindow(Span(ws[|ws| - 1].first, times))
    requires |ws[|ws| - 1].times| > 0 && times[0] == ws[|ws| - 1].times[0]
    ensures var ws' := ws[|ws| - 1 := Span(ws[|ws| - 1].first, times)];
            AreWindows(ws') && Flatten(ws') == Flatten(ws[..|ws| - 1]) + times
  {
    var ws' := ws[|ws| - 1 := Span(ws[|ws| - 1].first, times)];
    assert ws'[..|ws| - 1] == ws[..|ws| - 1];
    forall k | 1 <= k < |ws'| ensures Follows(ws', k) {
      assert Follows(ws, k);
    }
  }

  lemma ExtendGroups(l: Log, ws: seq<Span>, now: real, a: Attempt) returns (ws': seq<Span>)
    requires Groups(l, ws, now) && 0.0 < now <= a.asked <= a.tested <= a.marked
    ensures Groups(Extend(l, a), ws', a.marked)
  {
    if Judge(l.entry, a).TooMany? {
      ws' := ws;
    } else if Judge(l.entry, a).Right? {
      ws' := [];
    } else if ws == [] || a.tested - ws[|ws| - 1].first >= Window {
      OpenGroups(l, ws, now, a);
      ws' := ws + [Span(a.marked, [a.tested])];
    } else {
      CountGroups(l, ws, now, a);
      ws' := ws[|ws| - 1 := Span(ws[|ws| - 1].first, ws[|ws| - 1].times + [a.tested])];
    }
  }

  lemma {:induction false} AfterGroups(l: Log, ws: seq<Span>, now: real, attempts: seq<Attempt>)
    returns (ws': seq<Span>, later: real)
    requires Groups(l, ws, now) && Clocked(now, attempts)
    ensures Groups(After(l, attempts), ws', later)
    decreases attempts
  {
    if attempts == [] {
      ws', later := ws, now;
    } else {
      var next := ExtendGroups(l, ws, now, attempts[0]);
      ws', later := AfterGroups(Extend(l, attempts[0]), next, attempts[0].marked, attempts[1..]);
    }
  }

  // ---- the bound ----------------------------------------------------------------------------

  /** How many of the times fall into the half-open span [from, from + 300). */
  function InSpan(times: seq<real>, from: real): nat {
    if times == [] then 0
    else (if from <= times[0] < from + Window then 1 else 0) + InSpan(times[1..], from)
  }

  lemma {:induction false} InSpanConcat(a: seq<real>, b: seq<real>, from: real)
    ensures InSpan(a + b, from) == InSpan(a, from) + InSpan(b, from)
  {
    if a == [] {
      assert a + b == b;
    } else {
      assert (a + b)[1..] == a[1..] + b;
      InSpanConcat(a[1..], b, from);
    }
  }

  lemma {:induction false} InSpanLimits(times: seq<real>, from: real)
    ensures InSpan(times, from) <= |times|
    ensures times != [] && !(from <= times[0] < from + Window) ==> InSpan(times, from) <= |times| - 1
    ensures (forall i :: 0 <= i < |times| ==> !(from <= times[i] < from + Window)) ==> InSpan(times, from) == 0
  {
    if times != [] { InSpanLimits(times[1..], from); }
  }

  lemma FewerWindows(ws: seq<Span>)
    requires AreWindows(ws) && ws != []
    ensures AreWindows(ws[..|ws| - 1])
  {
    var fewer := ws[..|ws| - 1];
    forall k | 1 <= k < |fewer| ensures Follows(fewer, k) {
      assert Follows(ws, k);
    }
  }

  /** At most two windows meet a span, and only one of them with its first failure. */
  lemma {:induction false} WindowsInSpan(ws: seq<Span>, from: real)
    requires AreWindows(ws)
    ensures InSpan(Flatten(ws), from) <= 9
    ensures ws != [] && ws[|ws| - 1].first + Window <= from ==> InSpan(Flatten(ws), from) == 0
    ensures ws != [] && ws[|ws| - 1].times[0] < from ==> InSpan(Flatten(ws), from) <= 4
    decreases |ws|
  {
    if ws != [] {
      var before, last := ws[..|ws| - 1], ws[|ws| - 1];
      FewerWindows(ws);
      WindowsInSpan(before, from);
      InSpanConcat(Flatten(before), last.times, from);
      InSpanLimits(last.times, from);
      assert IsWindow(last);
      if before != [] {
        assert before[|before| - 1] == ws[|ws| - 2] && IsWindow(ws[|ws| - 2]) && Follows(ws, |ws| - 1);
      }
    }
  }

  /** The rate bound, over every sequence of attempts: a window never records more than 5
      failures, and between two clears any half-open 300 s span whatever contains at most 9
      attempts that tell anything about the password. */
  lemma RateBound(now: real, attempts: seq<Attempt>, from: real)
    requires Clocked(now, attempts)
    ensures var l := After(Empty, attempts);
            (l.entry.Some? ==> 1 <= l.entry.value.count <= MaxFailures) && InSpan(l.times, from) <= 9
  {
    var ws, later := AfterGroups(Empty, [], now, attempts);
    WindowsInSpan(ws, from);
    assert ws != [] ==> IsWindow(ws[|ws| - 1]);
  }

  // ---- the bound is reached -------------------------------------------------------------------

  function Repeat(t: real, n: nat): seq<Attempt> {
    if n == 0 then [] else [Attempt(t, t, t, false)] + Repeat(t, n - 1)
  }

  function Copies(t: real, n: nat): seq<real> {
    if n == 0 then [] else [t] + Copies(t, n - 1)
  }

  lemma {:induction false} RepeatCounts(l: Log, t: real, n: nat)
    requires l.entry.Some? && l.entry.value.count + n <= MaxFailures
    requires l.entry.value.first != 0.0 && t - l.entry.value.first < Window
    ensures After(l, Repeat(t, n)) == Log(Some(Failures(l.entry.value.count + n, l.entry.value.first)), l.times + Copies(t, n))
    decreases n
  {
    if n == 0 {
      assert l.times + Copies(t, 0) == l.times;
    } else {
      var a := Attempt(t, t, t, false);
      assert Repeat(t, n)[1..] == Repeat(t, n - 1);
      RepeatCounts(Extend(l, a), t, n - 1);
      assert l.times + [t] + Copies(t, n - 1) == l.times + Copies(t, n);
    }
  }

  lemma {:induction false} AfterConcat(l: Log, a: seq<Attempt>, b: seq<Attempt>)
    ensures After(l, a + b) == After(After(l, a), b)
    decreases a
  {
    if a == [] {
      assert a + b == b;
    } else {
      assert (a + b)[1..] == a[1..] + b;
      AfterConcat(Extend(l, a[0]), a[1..], b);
    }
  }

  lemma {:induction false} RepeatClocked(now: real, t: real, n: nat, more: seq<Attempt>)
    requires 0.0 < now <= t && Clocked(t, more)
    ensures Clocked(now, Repeat(t, n) + more)
    decreases n
  {
    if n == 0 {
      assert Repeat(t, 0) + more == more;
    } else {
      RepeatClocked(t, t, n - 1, more);
      Assoc([Attempt(t, t, t, false)], Repeat(t, n - 1), more);
      assert ([Attempt(t, t, t, false)] + (Repeat(t, n - 1) + more))[1..] == Repeat(t, n - 1) + more;
    }
  }

  lemma {:induction false} CopiesInSpan(t: real, n: nat, from: real)
    ensures InSpan(Copies(t, n), from) == if from <= t < from + Window then n else 0
  {
    if n > 0 {
      assert Copies(t, n)[1..] == Copies(t, n - 1);
      CopiesInSpan(t, n - 1, from);
    }
  }

  /** Nine is the best bound: one failure, four more just before its window closes, and five
      as soon as it has. */
  lemma NineIsReached() returns (attempts: seq<Attempt>)
    ensures Clocked(1.0, attempts) && InSpan(After(Empty, attempts).times, 300.0) == 9
  {
    var late, next := Repeat(300.0, 4), Repeat(301.0, 5);
    attempts := Repeat(1.0, 1) + (late + next);
    NineAreClocked();
    AfterConcat(Empty, Repeat(1.0, 1), late + next);
    AfterConcat(After(Empty, Repeat(1.0, 1)), late, next);
    var l5 := FirstFive();
    LastFive(l5);
    NineInSpan();
  }

  lemma NineAreClocked()
    ensures Clocked(1.0, Repeat(1.0, 1) + (Repeat(300.0, 4) + Repeat(301.0, 5)))
  {
    var next := Repeat(301.0, 5);
    RepeatClocked(300.0, 301.0, 5, []);
    assert next + [] == next;
    RepeatClocked(1.0, 300.0, 4, next);
    RepeatClocked(1.0, 1.0, 1, Repeat(300.0, 4) + next);
  }

  lemma FirstFive() returns (l: Log)
    ensures l == After(After(Empty, Repeat(1.0, 1)), Repeat(300.0, 4))
    ensures l == Log(Some(Failures(5, 1.0)), [1.0] + Copies(300.0, 4))
  {
    l := OpensWindow(Empty, 1.0);
    RepeatCounts(l, 300.0, 4);
    assert [] + [1.0] == [1.0];
    l := After(l, Repeat(300.0, 4));
  }

  lemma LastFive(l: Log)
    requires l.entry == Some(Failures(5, 1.0))
    ensures After(l, Repeat(301.0, 5)).times == l.times + Copies(301.0, 5)
  {
    var first := OpensWindow(l, 301.0);
    RepeatCounts(first, 301.0, 4);
    assert Repeat(301.0, 5)[1..] == Repeat(301.0, 4);
    assert Copies(301.0, 5) == [301.0] + Copies(301.0, 4);
    assert l.times + [301.0] + Copies(301.0, 4) == l.times + ([301.0] + Copies(301.0, 4));
  }

  lemma NineInSpan()
    ensures InSpan([1.0] + Copies(300.0, 4) + Copies(301.0, 5), 300.0) == 9
  {
    InSpanConcat([1.0] + Copies(300.0, 4), Copies(301.0, 5), 300.0);
    InSpanConcat([1.0], Copies(300.0, 4), 300.0);
    CopiesInSpan(300.0, 4, 300.0);
    CopiesInSpan(301.0, 5, 300.0);
  }

  lemma OpensWindow(l: Log, t: real) returns (l': Log)
    requires 0.0 < t && (l.entry.Some? ==> t - l.entry.value.first >= Window)
    requires l.entry.None? ==> l == Empty
    ensures l' == Extend(l, Attempt(t, t, t, false)) && l' == Log(Some(Failures(1, t)), l.times + [t])
    ensures l' == After(l, Repeat(t, 1))
  {
    l' := Extend(l, Attempt(t, t, t, false));
    assert Repeat(t, 1)[1..] == [];
  }

  // ---- attempts for a key that overlap -----------------------------------------------------

  /** A key's entry, and the attempts that were let through and have not recorded an outcome. */
  datatype Key = Key(entry: Option<Failures>, inFlight: nat)

  /** An attempt asks first and records later; others may come in between. */
  datatype Event = Ask(now: real) | Fail(tested: real, marked: real) | Succeed(now: real)

  function From(e: Event): real {
    match e
    case Ask(now) => now
    case Fail(tested, _) => tested
    case Succeed(now) => now
  }

  function Until(e: Event): real {
    if e.Fail? then e.marked else From(e)
  }

  /** The clock never runs backwards, and no more than c attempts are in flight. */
  predicate Possible(k: Key, now: real, e: Event, c: nat) {
    && now <= From(e) <= Until(e)
    && (e.Ask? ==> RateLimited(k.entry, e.now) || k.inFlight < c)
    && (!e.Ask? ==> k.inFlight > 0)
  }

  function Happen(k: Key, e: Event): Key
    requires !e.Ask? ==> k.inFlight > 0
  {
    match e
    case Ask(now) => if RateLimited(k.entry, now) then k else k.(inFlight := k.inFlight + 1)
    case Fail(tested, marked) => Key(Some(RecordFailure(k.entry, tested, marked)), k.inFlight - 1)
    case Succeed(_) => Key(None, k.inFlight - 1)
  }

  predicate PossibleAll(k: Key, now: real, es: seq<Event>, c: nat)
    decreases es
  {
    es == [] || (Possible(k, now, es[0], c) && PossibleAll(Happen(k, es[0]), Until(es[0]), es[1..], c))
  }

  function HappenAll(k: Key, now: real, es: seq<Event>, c: nat): Key
    requires PossibleAll(k, now, es, c)
    decreases es
  {
    if es == [] then k else HappenAll(Happen(k, es[0]), Until(es[0]), es[1..], c)
  }

  /** While a window is open, its failures and the attempts in flight together stay within
      4 + c. */
  predicate Bounded(k: Key, now: real, c: nat) {
    && 0.0 < now && k.inFlight <= c
    && (k.entry.Some? ==>
          && 0.0 < k.entry.value.first && 1 <= k.entry.value.count <= 4 + c
          && (now - k.entry.value.first < Window ==> k.entry.value.count + k.inFlight <= 4 + c))
  }

  lemma HappenBounded(k: Key, now: real, e: Event, c: nat)
    requires Bounded(k, now, c) && Possible(k, now, e, c)
    ensures Bounded(Happen(k, e), Until(e), c)
  {
  }

  /** The window bound for overlapping attempts: with at most c of them in flight, no window
      ever records more than 4 + c failures. */
  lemma {:induction false} OverlapBound(k: Key, now: real, es: seq<Event>, c: nat)
    requires Bounded(k, now, c) && PossibleAll(k, now, es, c)
    ensures var entry := HappenAll(k, now, es, c).entry;
            entry.Some? ==> 1 <= entry.value.count <= 4 + c
    decreases es
  {
    if es != [] {
      HappenBounded(k, now, es[0], c);
      OverlapBound(Happen(k, es[0]), Until(es[0]), es[1..], c);
    }
  }

  /** From a fresh key, the failures a window can record with at most c attempts in flight are
      exactly 1 to 4 + c. */
  lemma OverlapBoundIsExact(c: nat, n: nat)
    requires c > 0
    ensures (exists es :: LeavesCount(es, c, n)) <==> 1 <= n <= 4 + c
  {
    forall es | LeavesCount(es, c, n) ensures 1 <= n <= 4 + c {
      OverlapBound(Key(None, 0), 1.0, es, c);
    }
    if 1 <= n <= 4 + c {
      var es := Burst(c, n);
    }
  }

  predicate Records(k: Key, n: nat) {
    k.entry.Some? && k.entry.value.count == n
  }

  predicate LeavesCount(es: seq<Event>, c: nat, n: nat) {
    PossibleAll(Key(None, 0), 1.0, es, c) && Records(HappenAll(Key(None, 0), 1.0, es, c), n)
  }

  /** Up to four failures one after the other, and the rest all at once. */
  lemma Burst(c: nat, n: nat) returns (es: seq<Event>)
    requires 1 <= n <= 4 + c && c > 0
    ensures LeavesCount(es, c, n)
  {
    var first, rest := if n < 4 then n else 4, if n < 4 then 0 else n - 4;
    var start := [Ask(1.0), Fail(1.0, 1.0)];
    var k := Key(Some(Failures(1, 1.0)), 0);
    assert start[1..] == [Fail(1.0, 1.0)] && start[1..][1..] == [];
    assert PossibleAll(Happen(Key(None, 0), start[0]), 1.0, start[1..], c);
    assert HappenAll(Key(None, 0), 1.0, start, c) == k;
    var one := OneByOne(k, first - 1, c);
    var all := AllAtOnce(Key(Some(Failures(first, 1.0)), 0), rest, c);
    HappenConcat(k, one, all, c);
    HappenConcat(Key(None, 0), start, one + all, c);
    es := start + (one + all);
  }

  lemma {:induction false} OneByOne(k: Key, n: nat, c: nat) returns (es: seq<Event>)
    requires k.inFlight == 0 < c && k.entry.Some? && k.entry.value.first == 1.0 && k.entry.value.count + n <= 4
    ensures PossibleAll(k, 1.0, es, c) && (forall e :: e in es ==> Until(e) == 1.0)
    ensures HappenAll(k, 1.0, es, c) == Key(Some(Failures(k.entry.value.count + n, 1.0)), 0)
    decreases n
  {
    if n == 0 {
      es := [];
    } else {
      var pair, next := OneFailure(k, c);
      var more := OneByOne(next, n - 1, c);
      HappenConcat(k, pair, more, c);
      es := pair + more;
    }
  }

  /** One attempt from start to end. */
  lemma OneFailure(k: Key, c: nat) returns (pair: seq<Event>, next: Key)
    requires k.inFlight == 0 < c && k.entry.Some? && k.entry.value.first == 1.0 && k.entry.value.count < 4
    ensures PossibleAll(k, 1.0, pair, c) && (forall e :: e in pair ==> Until(e) == 1.0)
    ensures next == HappenAll(k, 1.0, pair, c) == Key(Some(Failures(k.entry.value.count + 1, 1.0)), 0)
  {
    pair := [Ask(1.0), Fail(1.0, 1.0)];
    next := Key(Some(Failures(k.entry.value.count + 1, 1.0)), 0);
    var asked := Happen(k, pair[0]);
    assert asked == k.(inFlight := 1) && Happen(asked, pair[1]) == next;
    assert pair[1..] == [pair[1]] && pair[1..][1..] == [];
    assert PossibleAll(next, 1.0, pair[1..][1..], c);
    assert Possible(asked, 1.0, pair[1], c) && PossibleAll(asked, 1.0, pair[1..], c);
  }

  lemma AllAtOnce(k: Key, n: nat, c: nat) returns (es: seq<Event>)
    requires k.inFlight == 0 && n <= c
    requires k.entry.Some? && k.entry.value.first == 1.0 && 1 <= k.entry.value.count <= 4
    ensures PossibleAll(k, 1.0, es, c) && (forall e :: e in es ==> Until(e) == 1.0)
    ensures HappenAll(k, 1.0, es, c) == Key(Some(Failures(k.entry.value.count + n, 1.0)), 0)
  {
    var asks := Asking(k, n, c);
    var fails := Failing(k.(inFlight := n), n, c);
    HappenConcat(k, asks, fails, c);
    es := asks + fails;
  }

  lemma {:induction false} Asking(k: Key, n: nat, c: nat) returns (es: seq<Event>)
    requires k.inFlight + n <= c && !RateLimited(k.entry, 1.0)
    ensures forall e :: e in es ==> Until(e) == 1.0
    ensures PossibleAll(k, 1.0, es, c) && HappenAll(k, 1.0, es, c) == k.(inFlight := k.inFlight + n)
    decreases n
  {
    if n == 0 {
      es := [];
    } else {
      var more := Asking(k.(inFlight := k.inFlight + 1), n - 1, c);
      es := [Ask(1.0)] + more;
      assert es[1..] == more;
    }
  }

  lemma {:induction false} Failing(k: Key, n: nat, c: nat) returns (es: seq<Event>)
    requires k.inFlight == n && k.entry.Some? && k.entry.value.first == 1.0
    ensures PossibleAll(k, 1.0, es, c) && (forall e :: e in es ==> Until(e) == 1.0)
    ensures HappenAll(k, 1.0, es, c) == Key(Some(Failures(k.entry.value.count + n, 1.0)), 0)
    decreases n
  {
    if n == 0 {
      es := [];
    } else {
      var more := Failing(Key(Some(Failures(k.entry.value.count + 1, 1.0)), n - 1), n - 1, c);
      es := [Fail(1.0, 1.0)] + more;
      assert es[1..] == more;
    }
  }

  /** Two schedules at one instant, one after the other. */
  lemma {:induction false} HappenConcat(k: Key, a: seq<Event>, b: seq<Event>, c: nat)
    requires PossibleAll(k, 1.0, a, c) && PossibleAll(HappenAll(k, 1.0, a, c), 1.0, b, c)
    requires forall e :: e in a ==> Until(e) == 1.0
    ensures PossibleAll(k, 1.0, a + b, c) && HappenAll(k, 1.0, a + b, c) == HappenAll(HappenAll(k, 1.0, a, c), 1.0, b, c)
    decreases a
  {
    if a == [] {
      assert a + b == b;
    } else {
      assert (a + b)[1..] == a[1..] + b && a[0] in a;
      HappenConcat(Happen(k, a[0]), a[1..], b, c);
    }
  }

  // ---- without any bound on the attempts in flight -----------------------------------------

  function RecordMany(f: Option<Failures>, t: real, n: nat): Option<Failures>
    decreases n
  {
    if n == 0 then f else RecordMany(Some(RecordFailure(f, t, t)), t, n - 1)
  }

  /** Attempts that all ask before any of them records are all let through: n of them, for
      any n, leave n failures in one window. */
  lemma {:induction false} ConcurrentAttemptsEscape(t: real, n: nat)
    requires 0.0 < t && n > 0
    ensures !RateLimited(None, t) && RecordMany(None, t, n) == Some(Failures(n, t))
  {
    RecordManyCounts(Failures(1, t), n - 1);
  }

  lemma {:induction false} RecordManyCounts(f: Failures, n: nat)
    requires 0.0 < f.first
    ensures RecordMany(Some(f), f.first, n) == Some(Failures(f.count + n, f.first))
    decreases n
  {
    if n > 0 { RecordManyCounts(Failures(f.count + 1, f.first), n - 1); }
  }
}
