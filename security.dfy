/**
 * Request-level security helpers: the input sanitiser, a fixed-window rate limiter keyed by
 * client identifier, and the PWSID, email and phone validators.
 */
module Security {
  import opened Wrappers
  import opened JsString

  // ---------------------------------------------------------------------------------------------
  // sanitizeInput
  // ---------------------------------------------------------------------------------------------

  const MaxInputLength := 1000

  /** `replace(/[<>]/g, '')`. */
  function StripAngles(s: string): (r: string)
    ensures '<' !in r && '>' !in r
    ensures multiset(r) <= multiset(s)
    ensures forall c :: c != '<' && c != '>' ==> multiset(r)[c] == multiset(s)[c]
  {
    if s == [] then []
    else
      assert s == [s[0]] + s[1..];
      if s[0] == '<' || s[0] == '>' then StripAngles(s[1..]) else [s[0]] + StripAngles(s[1..])
  }

  /** `t` matches the pattern `javascript:` case-insensitively at the start of `s`. */
  predicate JavascriptAt(s: string) {
    |s| >= 11 && forall k | 0 <= k < 11 :: LowerChar(s[k]) == "javascript:"[k]
  }

  /** `replace(/javascript:/gi, '')`: deletes the leftmost non-overlapping matches, scanning rightwards. */
  function StripJavascript(s: string): (r: string)
    ensures |r| <= |s| && (|s| - |r|) % 11 == 0
  {
    if s == [] then []
    else if JavascriptAt(s) then StripJavascript(s[11..])
    else [s[0]] + StripJavascript(s[1..])
  }

  /** The end of the run of `\w` characters in `s` that starts at `i`. */
  function WordRunEnd(s: string, i: nat): (j: nat)
    requires i <= |s|
    ensures i <= j <= |s|
    ensures forall k :: i <= k < j ==> IsWordChar(s[k])
    ensures j == |s| || !IsWordChar(s[j])
    decreases |s| - i
  {
    if i < |s| && IsWordChar(s[i]) then WordRunEnd(s, i + 1) else i
  }

  /**
   * The length of a match of `on\w+=` (case-insensitive) at the start of `s`, or 0 when there is
   * none. `\w+` is greedy and `=` is not a word character, so a match must take the whole run.
   */
  function HandlerMatch(s: string): (n: nat)
    ensures n == 0 || (4 <= n <= |s| && s[n - 1] == '=')
  {
    if |s| >= 2 && LowerChar(s[0]) == 'o' && LowerChar(s[1]) == 'n' then
      var j := WordRunEnd(s, 2);
      if j > 2 && j < |s| && s[j] == '=' then j + 1 else 0
    else 0
  }

  /** `replace(/on\w+=/gi, '')`. */
  function StripHandlers(s: string): (r: string)
    ensures |r| <= |s|
    decreases |s|
  {
    if s == [] then []
    else
      var n := HandlerMatch(s);
      if n > 0 then StripHandlers(s[n..]) else [s[0]] + StripHandlers(s[1..])
  }

  /** Deleting the matches only removes characters. */
  lemma {:induction false} StripJavascriptMultiset(s: string)
    ensures multiset(StripJavascript(s)) <= multiset(s)
  {
    if s != [] {
      if JavascriptAt(s) {
        StripJavascriptMultiset(s[11..]);
        assert s == s[..11] + s[11..];
      } else {
        StripJavascriptMultiset(s[1..]);
        assert s == [s[0]] + s[1..];
      }
    }
  }

  lemma {:induction false} StripHandlersMultiset(s: string)
    ensures multiset(StripHandlers(s)) <= multiset(s)
    decreases |s|
  {
    if s != [] {
      var n := HandlerMatch(s);
      if n > 0 {
        StripHandlersMultiset(s[n..]);
        assert s == s[..n] + s[n..];
      } else {
        StripHandlersMultiset(s[1..]);
        assert s == [s[0]] + s[1..];
      }
    }
  }

  /** No window of `s` matches `javascript:`. */
  predicate NoJavascript(s: string) {
    forall i :: 0 <= i < |s| ==> !JavascriptAt(s[i..])
  }

  /** A string without a match comes back unchanged. */
  lemma {:induction false} StripJavascriptNoMatch(s: string)
    requires NoJavascript(s)
    ensures StripJavascript(s) == s
  {
    if s != [] {
      assert s[0..] == s;
      forall i | 0 <= i < |s[1..]| ensures !JavascriptAt(s[1..][i..]) {
        assert s[1..][i..] == s[i + 1..];
      }
      StripJavascriptNoMatch(s[1..]);
    }
  }

  /** Positions that start no match are copied, one at a time. */
  lemma {:induction false} StripJavascriptKeep(s: string, p: nat)
    requires p <= |s|
    requires forall i {:trigger JavascriptAt(s[i..])} :: 0 <= i < p ==> !JavascriptAt(s[i..])
    ensures StripJavascript(s) == s[..p] + StripJavascript(s[p..])
    decreases p
  {
    if p == 0 {
      assert s[..0] + StripJavascript(s[0..]) == StripJavascript(s);
    } else {
      StripJavascriptKeep(s, p - 1);
      var u := s[p - 1..];
      assert !JavascriptAt(u);
      assert u[1..] == s[p..];
      assert StripJavascript(u) == [s[p - 1]] + StripJavascript(s[p..]);
      assert s[..p - 1] + [s[p - 1]] == s[..p];
    }
  }

  /**
   * When the leftmost match starts at `p`, everything before it is kept, the match is deleted,
   * and the scan resumes after it: this and the lemma above pin `StripJavascript` down.
   */
  lemma StripJavascriptLeftmost(s: string, p: nat)
    requires p < |s| && JavascriptAt(s[p..])
    requires forall i {:trigger JavascriptAt(s[i..])} :: 0 <= i < p ==> !JavascriptAt(s[i..])
    ensures p + 11 <= |s| && StripJavascript(s) == s[..p] + StripJavascript(s[p + 11..])
  {
    StripJavascriptKeep(s, p);
    assert s[p..][11..] == s[p + 11..];
  }

  /**
   * One pass can re-form the pattern: a match nested inside another after its fourth character
   * (`javajavascript:script:`) leaves, once deleted, its two halves joined into a match again.
   */
  lemma StripJavascriptReforms(m: string)
    requires JavascriptAt(m) && |m| == 11
    ensures StripJavascript(m[..4] + m + m[4..]) == m
  {
    var s := m[..4] + m + m[4..];
    var tail := s[15..];
    assert tail == m[4..];
    assert StripJavascript(tail) == tail by {
      StripJavascriptNoMatch(tail);
    }
    assert StripJavascript(s) == s[..4] + StripJavascript(tail) by {
      assert LowerChar(m[0]) == 'j';
      forall i | 0 <= i < 4 ensures !JavascriptAt(s[i..]) {
        assert s[i..][4 - i] == m[0];
      }
      assert s[4..][..11] == m;
      StripJavascriptLeftmost(s, 4);
    }
    assert s[..4] + tail == m;
  }

  /** No position of `s` starts a match of `on\w+=`. */
  predicate NoHandler(s: string) {
    forall i :: 0 <= i < |s| ==> HandlerMatch(s[i..]) == 0
  }

  lemma {:induction false} StripHandlersNoMatch(s: string)
    requires NoHandler(s)
    ensures StripHandlers(s) == s
  {
    if s != [] {
      assert s[0..] == s;
      forall i | 0 <= i < |s[1..]| ensures HandlerMatch(s[1..][i..]) == 0 {
        assert s[1..][i..] == s[i + 1..];
      }
      StripHandlersNoMatch(s[1..]);
    }
  }

  /** Positions that start no match are copied, one at a time. */
  lemma {:induction false} StripHandlersKeep(s: string, p: nat)
    requires p <= |s|
    requires forall i {:trigger HandlerMatch(s[i..])} :: 0 <= i < p ==> HandlerMatch(s[i..]) == 0
    ensures StripHandlers(s) == s[..p] + StripHandlers(s[p..])
    decreases p
  {
    if p == 0 {
      assert s[..0] + StripHandlers(s[0..]) == StripHandlers(s);
    } else {
      var t := s[1..];
      assert StripHandlers(s) == [s[0]] + StripHandlers(t) by {
        assert s[0..] == s;
        StripHandlersStep(s);
      }
      assert StripHandlers(t) == t[..p - 1] + StripHandlers(s[p..]) by {
        forall i | 0 <= i < p - 1 ensures HandlerMatch(t[i..]) == 0 {
          assert t[i..] == s[i + 1..];
        }
        StripHandlersKeep(t, p - 1);
        assert t[p - 1..] == s[p..];
      }
      assert [s[0]] + t[..p - 1] == s[..p];
    }
  }

  /** A position that starts no match is copied. */
  lemma StripHandlersStep(u: string)
    requires u != [] && HandlerMatch(u) == 0
    ensures StripHandlers(u) == [u[0]] + StripHandlers(u[1..])
  {
  }

  /** A match at the start is deleted whole. */
  lemma StripHandlersSkip(u: string)
    requires HandlerMatch(u) > 0
    ensures StripHandlers(u) == StripHandlers(u[HandlerMatch(u)..])
  {
  }

  /** When the leftmost match starts at `p`, the text before it is kept and the whole match deleted. */
  lemma StripHandlersLeftmost(s: string, p: nat)
    requires p < |s| && HandlerMatch(s[p..]) > 0
    requires forall i {:trigger HandlerMatch(s[i..])} :: 0 <= i < p ==> HandlerMatch(s[i..]) == 0
    ensures p + HandlerMatch(s[p..]) <= |s|
    ensures StripHandlers(s) == s[..p] + StripHandlers(s[p + HandlerMatch(s[p..])..])
  {
    StripHandlersKeep(s, p);
    StripHandlersSkip(s[p..]);
    assert s[p..][HandlerMatch(s[p..])..] == s[p + HandlerMatch(s[p..])..];
  }

  /** `substring(0, n)`. */
  function Prefix(s: string, n: nat): (r: string)
    ensures |r| <= n && |r| <= |s|
    ensures multiset(r) <= multiset(s)
    ensures r == s[..|r|]
  {
    var k := if |s| < n then |s| else n;
    assert s == s[..k] + s[k..];
    s[..k]
  }

  /**
   * `sanitizeInput`: trim, delete angle brackets, `javascript:` and inline handler assignments,
   * and cut to 1000 characters. Every step only deletes characters, so the output is at most
   * 1000 characters long, uses no character more often than the input does, and has no angle
   * bracket.
   */
  function SanitizeInput(input: string): (r: string)
    ensures |r| <= MaxInputLength
    ensures multiset(r) <= multiset(input)
    ensures '<' !in r && '>' !in r
  {
    var t := Trim(input);
    assert multiset(t) <= multiset(input) by { TrimMultiset(input); }
    var a := StripAngles(t);
    StripJavascriptMultiset(a);
    StripHandlersMultiset(StripJavascript(a));
    var r := Prefix(StripHandlers(StripJavascript(a)), MaxInputLength);
    assert '<' !in multiset(r) && '>' !in multiset(r);
    r
  }

  /** A string without angle brackets passes `replace(/[<>]/g, '')` unchanged. */
  lemma {:induction false} StripAnglesNoop(s: string)
    requires '<' !in s && '>' !in s
    ensures StripAngles(s) == s
  {
    if s != [] {
      assert s == [s[0]] + s[1..];
      StripAnglesNoop(s[1..]);
    }
  }

  /**
   * Input that is already clean comes back unchanged: no white space at either end, at most
   * 1000 characters, no angle bracket, no `javascript:` and no `on\w+=` match.
   */
  lemma SanitizeClean(s: string)
    requires s == [] || (!IsSpace(s[0]) && !IsSpace(s[|s| - 1]))
    requires |s| <= MaxInputLength
    requires '<' !in s && '>' !in s
    requires NoJavascript(s) && NoHandler(s)
    ensures SanitizeInput(s) == s
  {
    TrimNoop(s);
    StripAnglesNoop(s);
    StripJavascriptNoMatch(s);
    StripHandlersNoMatch(s);
  }

  lemma TrimMultiset(s: string)
    ensures multiset(Trim(s)) <= multiset(s)
  {
    var k := TrimWindow(s);
    SliceMultiset(s, k, k + |Trim(s)|);
  }

  /** A slice holds no character more often than the whole string. */
  lemma SliceMultiset(s: string, i: nat, j: nat)
    requires i <= j <= |s|
    ensures multiset(s[i..j]) <= multiset(s)
  {
    assert s == s[..i] + s[i..j] + s[j..];
  }

  // ---------------------------------------------------------------------------------------------
  // RateLimiter
  // ---------------------------------------------------------------------------------------------

  /** One client's record: requests counted in the current window and when the window ends (ms). */
  datatype Window = Window(count: int, resetTime: int)

  /** A record exists for `id` and its window is still open at `now`. */
  predicate Live(store: map<string, Window>, id: string, now: int) {
    id in store && now < store[id].resetTime
  }

  /** Whether `isAllowed` admits a request from `id` at `now`. */
  function Allowed(store: map<string, Window>, id: string, max: int, now: int): (b: bool)
    ensures !b <==> Live(store, id, now) && store[id].count >= max
  {
    !Live(store, id, now) || store[id].count < max
  }

  /**
   * The store after `isAllowed`: a refused request changes nothing, an admitted one in an open
   * window increments the count, and otherwise a fresh window of length `window` opens at `now`.
   */
  function AfterRequest(store: map<string, Window>, id: string, max: int, window: int, now: int): (r: map<string, Window>)
    ensures r.Keys == store.Keys + {id}
    ensures forall k :: k in store && k != id ==> r[k] == store[k]
    ensures !Live(store, id, now) ==> r[id] == Window(1, now + window)
    ensures Live(store, id, now) ==> r[id].resetTime == store[id].resetTime
  {
    if Live(store, id, now) then
      if store[id].count >= max then store
      else store[id := store[id].(count := store[id].count + 1)]
    else store[id := Window(1, now + window)]
  }

  /** Every stored count lies between 1 and `max`. */
  ghost predicate Bounded(store: map<string, Window>, max: int) {
    forall k :: k in store ==> 1 <= store[k].count <= max
  }

  /** With a fixed limit of at least 1, no stored count ever exceeds the limit. */
  lemma AfterRequestBounded(store: map<string, Window>, id: string, max: int, window: int, now: int)
    requires Bounded(store, max) && max >= 1
    ensures Bounded(AfterRequest(store, id, max, window, now), max)
  {
  }

  /** A limit below 1 does not bound the store: the first request still stores count 1. */
  lemma ZeroLimitStoresOne(id: string, now: int)
    ensures Allowed(map[], id, 0, now)
    ensures !Bounded(AfterRequest(map[], id, 0, 900000, now), 0)
  {
    assert AfterRequest(map[], id, 0, 900000, now)[id].count == 1;
  }

  /** The answers and the final store for a run of requests from one client. */
  function Run(store: map<string, Window>, id: string, max: int, window: int, times: seq<int>): (r: (seq<bool>, map<string, Window>))
    ensures |r.0| == |times|
    decreases |times|
  {
    if times == [] then ([], store)
    else
      var rest := Run(AfterRequest(store, id, max, window, times[0]), id, max, window, times[1..]);
      ([Allowed(store, id, max, times[0])] + rest.0, rest.1)
  }

  /**
   * Inside one open window whose count is `c`, the `i`-th further request is admitted exactly
   * when `c + i < max`, and the count stops at `max`.
   */
  lemma {:induction false} RunInWindow(store: map<string, Window>, id: string, max: int, window: int, times: seq<int>)
    requires id in store && 1 <= store[id].count
    requires forall i :: 0 <= i < |times| ==> times[i] < store[id].resetTime
    ensures forall i :: 0 <= i < |times| ==> (Run(store, id, max, window, times).0[i] <==> store[id].count + i < max)
    ensures id in Run(store, id, max, window, times).1
    ensures Run(store, id, max, window, times).1[id].resetTime == store[id].resetTime
  {
    if times != [] {
      var next := AfterRequest(store, id, max, window, times[0]);
      RunInWindow(next, id, max, window, times[1..]);
      var rs := Run(store, id, max, window, times).0;
      forall i | 1 <= i < |times|
        ensures rs[i] <==> store[id].count + i < max
      {
        assert rs[i] == Run(next, id, max, window, times[1..]).0[i - 1];
      }
    }
  }

  /**
   * A burst of requests that all fall inside the window the first of them opens: exactly the
   * first `max` are admitted.
   */
  lemma Burst(store: map<string, Window>, id: string, max: int, window: int, times: seq<int>)
    requires |times| >= 1 && !Live(store, id, times[0])
    requires forall i :: 0 <= i < |times| ==> times[i] < times[0] + window
    ensures forall i :: 0 <= i < |times| ==> (Run(store, id, max, window, times).0[i] <==> i < max || i == 0)
  {
    var next := AfterRequest(store, id, max, window, times[0]);
    RunInWindow(next, id, max, window, times[1..]);
    var rs := Run(store, id, max, window, times).0;
    forall i | 1 <= i < |times| ensures rs[i] <==> i < max {
      assert rs[i] == Run(next, id, max, window, times[1..]).0[i - 1];
    }
  }

  /** The defaults of `isAllowed`'s `maxRequests` and `windowMs` parameters. */
  const DefaultMaxRequests := 100
  const DefaultWindowMs := 15 * 60 * 1000

  /** The `RateLimiter` class: its private map from identifier to window. */
  class RateLimiter {
    var store: map<string, Window>

    constructor ()
      ensures store == map[]
    {
      store := map[];
    }

    /** `isAllowed(identifier, maxRequests, windowMs)`, with the clock passed in as `now`. */
    method IsAllowed(id: string, max: int, window: int, now: int) returns (allowed: bool)
      modifies this
      ensures allowed == Allowed(old(store), id, max, now)
      ensures store == AfterRequest(old(store), id, max, window, now)
    {
      if id in store && now < store[id].resetTime {
        if store[id].count >= max {
          return false;
        }
        store := store[id := store[id].(count := store[id].count + 1)];
      } else {
        store := store[id := Window(1, now + window)];
      }
      return true;
    }

    /** `isAllowed(identifier)` with its default limit of 100 requests per 15-minute window. */
    method IsAllowedByDefault(id: string, now: int) returns (allowed: bool)
      modifies this
      ensures allowed == Allowed(old(store), id, DefaultMaxRequests, now)
      ensures store == AfterRequest(old(store), id, DefaultMaxRequests, DefaultWindowMs, now)
    {
      allowed := IsAllowed(id, DefaultMaxRequests, DefaultWindowMs, now);
    }

    /**
     * `cleanup()`: walks the entries and deletes the ones whose window ended strictly before
     * `now`. A record with `now == resetTime` stays, although `isAllowed` already treats it as
     * expired.
     */
    method Cleanup(now: int)
      modifies this
      ensures store == map k | k in old(store) && now <= old(store)[k].resetTime :: old(store)[k]
    {
      var pending := store.Keys;
      while pending != {}
        invariant pending <= old(store).Keys
        invariant store == map k | k in old(store) && (k in pending || now <= old(store)[k].resetTime) :: old(store)[k]
        decreases pending
      {
        var k :| k in pending;
        if now > store[k].resetTime {
          store := store - {k};
        }
        pending := pending - {k};
      }
    }
  }

  /** A record whose window ends exactly at `now` survives `cleanup` but is replaced by the next request. */
  lemma CleanupBoundary(id: string, w: Window, now: int)
    requires now == w.resetTime
    ensures !Live(map[id := w], id, now)
    ensures (map k | k in map[id := w] && now <= map[id := w][k].resetTime :: map[id := w][k]) == map[id := w]
  {
  }

  // ---------------------------------------------------------------------------------------------
  // Validators
  // ---------------------------------------------------------------------------------------------

  predicate IsUpperAlnum(c: char) {
    ('A' <= c <= 'Z') || IsDigit(c)
  }

  /** `/^[A-Z0-9]{9}$/`. */
  function ValidatePwsid(s: string): (b: bool)
    ensures b <==> |s| == 9 && forall i :: 0 <= i < |s| ==> IsUpperAlnum(s[i])
  {
    |s| == 9 && forall i | 0 <= i < 9 :: IsUpperAlnum(s[i])
  }

  /** A piece of an email address: characters matched by `[^\s@]`. */
  predicate Plain(t: string) {
    forall k | 0 <= k < |t| :: !IsSpace(t[k]) && t[k] != '@'
  }

  /** `s` splits at `i` (the `@`) and `j` (the `.`) into three non-empty plain pieces. */
  predicate EmailSplit(s: string, i: int, j: int) {
    0 < i && i + 1 < j && j + 1 < |s| && s[i] == '@' && s[j] == '.'
    && Plain(s[..i]) && Plain(s[i + 1..j]) && Plain(s[j + 1..])
  }

  /**
   * The language of `/^[^\s@]+@[^\s@]+\.[^\s@]+$/`: a non-empty local part, `@`, a non-empty
   * host, a literal `.` and a non-empty last part, all three free of white space and `@`.
   */
  ghost predicate EmailPattern(s: string) {
    exists i, j :: EmailSplit(s, i, j)
  }

  /** `@` occurs at index `at` and nowhere else, and `s` has no white space. */
  predicate SingleAtNoSpace(s: string, at: int) {
    forall k | 0 <= k < |s| :: !IsSpace(s[k]) && (s[k] == '@' ==> k == at)
  }

  /** `validateEmail`: one `@` after a non-empty local part, no white space, a `.` inside the domain. */
  function ValidateEmail(s: string): (b: bool)
    ensures b <==> EmailPattern(s)
  {
    var at := IndexOfFrom(s, "@", 0);
    var ok := at >= 1 && SingleAtNoSpace(s, at) && (exists j | at + 1 < j < |s| - 1 :: s[j] == '.');
    assert ok <==> EmailPattern(s) by {
      if ok {
        assert OccursAt(s, "@", at);
        assert s[at] == s[at..at + 1][0];
        EmailSound(s, at);
      }
      if EmailPattern(s) { EmailComplete(s, at); }
    }
    ok
  }

  lemma PlainSlice(s: string, lo: int, hi: int, at: int)
    requires 0 <= lo <= hi <= |s| && SingleAtNoSpace(s, at) && !(lo <= at < hi)
    ensures Plain(s[lo..hi])
  {
    forall k | 0 <= k < hi - lo ensures !IsSpace(s[lo..hi][k]) && s[lo..hi][k] != '@' {
      assert s[lo..hi][k] == s[lo + k];
    }
  }

  lemma EmailSound(s: string, at: int)
    requires 1 <= at < |s| && s[at] == '@' && SingleAtNoSpace(s, at)
    requires exists j | at + 1 < j < |s| - 1 :: s[j] == '.'
    ensures EmailPattern(s)
  {
    var j :| at + 1 < j < |s| - 1 && s[j] == '.';
    PlainSlice(s, 0, at, at);
    PlainSlice(s, at + 1, j, at);
    PlainSlice(s, j + 1, |s|, at);
    assert s[..at] == s[0..at] && s[j + 1..] == s[j + 1..|s|];
    assert EmailSplit(s, at, j);
  }

  lemma SplitSingleAt(s: string, i: int, j: int)
    requires EmailSplit(s, i, j)
    ensures SingleAtNoSpace(s, i)
  {
    forall k | 0 <= k < |s| ensures !IsSpace(s[k]) && (s[k] == '@' ==> k == i) {
      if k < i { assert s[..i][k] == s[k]; }
      else if i < k < j { assert s[i + 1..j][k - i - 1] == s[k]; }
      else if j < k { assert s[j + 1..][k - j - 1] == s[k]; }
    }
  }

  lemma FirstAt(s: string, i: int)
    requires 0 <= i < |s| && s[i] == '@' && SingleAtNoSpace(s, i)
    ensures IndexOfFrom(s, "@", 0) == i
  {
    assert s[i..i + 1] == "@";
    assert OccursAt(s, "@", i);
    forall k | 0 <= k < i ensures !OccursAt(s, "@", k) {
      assert s[k..k + 1][0] == s[k];
    }
  }

  lemma EmailComplete(s: string, at: int)
    requires at == IndexOfFrom(s, "@", 0) && EmailPattern(s)
    ensures at >= 1 && SingleAtNoSpace(s, at) && exists j | at + 1 < j < |s| - 1 :: s[j] == '.'
  {
    var i, j :| EmailSplit(s, i, j);
    SplitSingleAt(s, i, j);
    FirstAt(s, i);
  }

  /** `replace(/[\s\-\(\)]/g, '')`. */
  predicate IsPhonePunct(c: char) {
    IsSpace(c) || c == '-' || c == '(' || c == ')'
  }

  function StripPhonePunct(s: string): (r: string)
    ensures forall k :: 0 <= k < |r| ==> !IsPhonePunct(r[k])
  {
    if s == [] then []
    else
      if IsPhonePunct(s[0]) then StripPhonePunct(s[1..]) else [s[0]] + StripPhonePunct(s[1..])
  }

  /** `/^[\+]?[1-9][\d]{0,15}$/`: an optional `+`, a non-zero digit, then at most 15 digits. */
  predicate PhonePattern(t: string) {
    var d := PhoneDigits(t);
    1 <= |d| <= 16 && '1' <= d[0] <= '9' && forall k | 1 <= k < |d| :: IsDigit(d[k])
  }

  /** The number without its optional leading `+`. */
  function PhoneDigits(t: string): (d: string)
    ensures |t| - 1 <= |d| <= |t| && d == t[|t| - |d|..]
    ensures |d| < |t| <==> |t| > 0 && t[0] == '+'
  {
    if |t| > 0 && t[0] == '+' then t[1..] else t
  }

  /** `validatePhone`: the phone pattern on the number with spaces, dashes and parentheses removed. */
  function ValidatePhone(s: string): (b: bool)
    ensures b <==> PhoneShape(StripPhonePunct(s))
  {
    PhonePatternShape(StripPhonePunct(s));
    PhonePattern(StripPhonePunct(s))
  }

  /**
   * The phone pattern read case by case: either `+`, a digit 1-9 and at most 15 more digits, or
   * a digit 1-9 and at most 15 more digits with no `+`.
   */
  predicate PhoneShape(t: string) {
    || (2 <= |t| <= 17 && t[0] == '+' && '1' <= t[1] <= '9' && forall k | 2 <= k < |t| :: IsDigit(t[k]))
    || (1 <= |t| <= 16 && '1' <= t[0] <= '9' && forall k | 1 <= k < |t| :: IsDigit(t[k]))
  }

  /** The pattern, written with the optional `+` stripped first, accepts exactly the numbers of that shape. */
  lemma PhonePatternShape(t: string)
    ensures PhonePattern(t) <==> PhoneShape(t)
  {
    var d := PhoneDigits(t);
    if |t| > 0 && t[0] == '+' {
      assert d == t[1..];
      if PhonePattern(t) {
        forall k | 2 <= k < |t| ensures IsDigit(t[k]) {
          assert t[k] == d[k - 1];
        }
      }
      if PhoneShape(t) {
        forall k | 1 <= k < |d| ensures IsDigit(d[k]) {
          assert d[k] == t[k + 1];
        }
      }
    } else {
      assert d == t;
    }
  }

  /** A number made of digits and `+` has nothing to strip. */
  lemma {:induction false} StripNoPunct(t: string)
    requires forall k :: 0 <= k < |t| ==> IsDigit(t[k]) || t[k] == '+'
    ensures StripPhonePunct(t) == t
  {
    if t != [] {
      assert !IsPhonePunct(t[0]);
      StripNoPunct(t[1..]);
      assert t == [t[0]] + t[1..];
    }
  }

  /** Sixteen digits are accepted when the first is non-zero; seventeen never are, with or without `+`. */
  lemma PhoneLengthLimit(t: string)
    requires forall k :: 0 <= k < |t| ==> IsDigit(t[k])
    ensures |t| == 16 && t[0] != '0' ==> ValidatePhone(t) && ValidatePhone("+" + t)
    ensures |t| >= 17 ==> !ValidatePhone(t) && !ValidatePhone("+" + t)
  {
    StripNoPunct(t);
    var p := "+" + t;
    assert forall k :: 1 <= k < |p| ==> p[k] == t[k - 1];
    StripNoPunct(p);
  }

  /** A digit string with a leading zero is refused, as is one with a `+` anywhere but in front. */
  lemma PhoneFirstDigit(t: string, i: nat)
    requires forall k :: 0 <= k < |t| ==> IsDigit(t[k]) || t[k] == '+'
    ensures |t| > 0 && t[0] == '0' ==> !ValidatePhone(t)
    ensures |t| > 1 && t[0] == '+' && t[1] == '0' ==> !ValidatePhone(t)
    ensures 0 < i < |t| && t[i] == '+' ==> !ValidatePhone(t)
  {
    StripNoPunct(t);
  }

  lemma {:induction false} StripPhonePunctConcat(a: string, b: string)
    ensures StripPhonePunct(a + b) == StripPhonePunct(a) + StripPhonePunct(b)
  {
    if a != [] {
      assert (a + b)[1..] == a[1..] + b;
      StripPhonePunctConcat(a[1..], b);
    } else {
      assert a + b == b;
    }
  }

  /** Spaces, dashes and parentheses anywhere in a phone number make no difference to the verdict. */
  lemma PhoneIgnoresPunct(a: string, c: char, b: string)
    requires IsPhonePunct(c)
    ensures ValidatePhone(a + [c] + b) == ValidatePhone(a + b)
  {
    calc {
      StripPhonePunct(a + [c] + b);
      { StripPhonePunctConcat(a + [c], b); }
      StripPhonePunct(a + [c]) + StripPhonePunct(b);
      { StripPhonePunctConcat(a, [c]); assert StripPhonePunct([c]) == []; }
      StripPhonePunct(a) + StripPhonePunct(b);
      { StripPhonePunctConcat(a, b); }
      StripPhonePunct(a + b);
    }
  }
}
