// The login rate limiter in front of the GraphQL endpoint
// (server/src/server/rate_limit.rs). Every client address keeps the
// instants of its recent admitted login attempts; an attempt is refused
// with status 429 and `Retry-After: 60` (section 4 of RFC 6585) when ten
// attempts already fall in the last sixty seconds. Instants are integers
// counting nanoseconds on the monotonic clock; they are a parameter.

module RateLimit {
  import opened Common
  import opened Text

  const MaxLoginAttempts := 10
  const NanosPerSecond := 1_000_000_000
  const WindowSeconds := 60
  /// The window as a span of instants.
  const Window := WindowSeconds * NanosPerSecond

  /// What the middleware sees of a request body: it could not be read,
  /// it is not JSON, or it is JSON whose `query` member is this string
  /// (None when absent or not a string).
  datatype Body = Unreadable | NotJson | Json(query: Option<string>)

  datatype Response =
    | BadRequest
    | Forwarded
    | TooManyRequests(retryAfter: string, message: string)

  const TooManyMessage := "Too many login attempts. Please try again later."

  /// A login mutation: a JSON body whose query mentions both words; an
  /// absent query counts as the empty text.
  function IsLoginOperation(body: Body): (r: bool)
    ensures r ==> body.Json? && body.query.Some? && |body.query.value| >= |"mutation"|
  {
    match body
    case Json(query) =>
      var q := query.UnwrapOr("");
      Contains(q, "login") && Contains(q, "mutation")
    case _ => false
  }

  // ---------------------------------------------------------------------
  // The attempt lists
  // ---------------------------------------------------------------------

  /// The instants strictly after `start`, in their order (what
  /// `retain(|time| *time > window_start)` keeps).
  function Recent(xs: seq<int>, start: int): (r: seq<int>)
    ensures |r| <= |xs|
    ensures forall t :: t in r <==> t in xs && t > start
  {
    if |xs| == 0 then []
    else (if xs[0] > start then [xs[0]] else []) + Recent(xs[1..], start)
  }

  /// One login attempt at `now` against the stored list: whether the limit
  /// is exceeded, and the list stored afterwards.
  function Attempt(stored: Option<seq<int>>, now: int): (r: (bool, seq<int>))
    ensures r.0 <==> stored.Some? && |Recent(stored.value, now - Window)| >= MaxLoginAttempts
    ensures stored.None? || |stored.value| <= MaxLoginAttempts ==> |r.1| <= MaxLoginAttempts
    ensures !r.0 ==> |r.1| > 0 && r.1[|r.1| - 1] == now
    ensures stored.None? ==> r == (false, [now])
  {
    match stored
    case None => (false, [now])
    case Some(xs) =>
      var kept := Recent(xs, now - Window);
      if |kept| >= MaxLoginAttempts then (true, kept) else (false, kept + [now])
  }

  /// The list for `ip`, if it has one.
  function Lookup(attempts: map<string, seq<int>>, ip: string): Option<seq<int>>
  {
    if ip in attempts then Some(attempts[ip]) else None
  }

  /// The shared map of the middleware.
  class LoginLimiter {
    var attempts: map<string, seq<int>>

    /// No address holds more than the limit.
    ghost predicate Valid()
      reads this
    {
      forall ip :: ip in attempts ==> |attempts[ip]| <= MaxLoginAttempts
    }

    constructor ()
      ensures Valid() && attempts == map[]
    {
      attempts := map[];
    }

    /// `Vec::retain` with the window test.
    method Retain(xs: seq<int>, start: int) returns (kept: seq<int>)
      ensures kept == Recent(xs, start)
    {
      kept := [];
      var i := 0;
      while i < |xs|
        invariant 0 <= i <= |xs|
        invariant kept == Recent(xs[..i], start)
      {
        RecentAppend(xs[..i], [xs[i]], start);
        assert xs[..i + 1] == xs[..i] + [xs[i]];
        if xs[i] > start {
          kept := kept + [xs[i]];
        }
        i := i + 1;
      }
      assert xs[..|xs|] == xs;
    }

    /// `login_rate_limit` for a request from `ip` arriving at `now`.
    method Handle(ip: string, body: Body, now: int) returns (resp: Response)
      requires Valid()
      modifies this
      ensures Valid()
      ensures body.Unreadable? ==> resp == BadRequest && attempts == old(attempts)
      ensures !body.Unreadable? && !IsLoginOperation(body) ==> resp == Forwarded && attempts == old(attempts)
      ensures IsLoginOperation(body) ==>
                var (exceeded, list) := Attempt(Lookup(old(attempts), ip), now);
                attempts == old(attempts)[ip := list] &&
                resp == (if exceeded then TooManyRequests("60", TooManyMessage) else Forwarded)
    {
      if body.Unreadable? {
        return BadRequest;
      }
      if !IsLoginOperation(body) {
        return Forwarded;
      }
      var windowStart := now - Window;
      var exceeded := false;
      if ip in attempts {
        var kept := Retain(attempts[ip], windowStart);
        if |kept| >= MaxLoginAttempts {
          exceeded := true;
        } else {
          kept := kept + [now];
        }
        attempts := attempts[ip := kept];
      } else {
        attempts := attempts[ip := [now]];
      }
      if exceeded {
        return TooManyRequests("60", TooManyMessage);
      }
      resp := Forwarded;
    }
  }

  // ---------------------------------------------------------------------
  // Properties
  // ---------------------------------------------------------------------

  /// Filtering distributes over concatenation.
  lemma {:induction false} RecentAppend(a: seq<int>, b: seq<int>, start: int)
    ensures Recent(a + b, start) == Recent(a, start) + Recent(b, start)
  {
    if |a| > 0 {
      RecentAppend(a[1..], b, start);
      assert (a + b)[1..] == a[1..] + b;
    } else {
      assert a + b == b;
    }
  }

  /// Filtering with a later start after an earlier one is filtering with
  /// the later one.
  lemma {:induction false} RecentTwice(xs: seq<int>, s1: int, s2: int)
    requires s1 <= s2
    ensures Recent(Recent(xs, s1), s2) == Recent(xs, s2)
  {
    if |xs| > 0 {
      RecentTwice(xs[1..], s1, s2);
      var head := if xs[0] > s1 then [xs[0]] else [];
      RecentAppend(head, Recent(xs[1..], s1), s2);
      if xs[0] > s1 {
        assert Recent(head, s2) == (if xs[0] > s2 then [xs[0]] else []) by {
          assert head[1..] == [];
        }
      }
    }
  }

  /// Successive login attempts from one address at the given instants:
  /// the instants that were let through, and the list stored afterwards.
  function Run(times: seq<int>): (seq<int>, Option<seq<int>>)
  {
    if |times| == 0 then ([], None)
    else
      var (adm, stored) := Run(times[..|times| - 1]);
      var now := times[|times| - 1];
      var (exceeded, list) := Attempt(stored, now);
      (if exceeded then adm else adm + [now], Some(list))
  }

  predicate Nondecreasing(times: seq<int>)
  {
    forall i, j :: 0 <= i <= j < |times| ==> times[i] <= times[j]
  }

  /// One attempt keeps the stored list equal to the admitted instants
  /// inside the window, when the clock has not gone back.
  lemma AttemptKeepsWindow(adm: seq<int>, p: int, now: int)
    requires p <= now
    ensures var (exceeded, list) := Attempt(Some(Recent(adm, p - Window)), now);
            list == Recent(if exceeded then adm else adm + [now], now - Window)
  {
    RecentTwice(adm, p - Window, now - Window);
    RecentAppend(adm, [now], now - Window);
    assert Recent([now], now - Window) == [now] by {
      assert [now][1..] == [];
    }
  }

  /// On a monotonic clock the stored list is exactly the admitted
  /// instants inside the window that ends at the latest attempt.
  lemma {:induction false} RunKeepsWindow(times: seq<int>)
    requires |times| > 0 && Nondecreasing(times)
    ensures Run(times).1 == Some(Recent(Run(times).0, times[|times| - 1] - Window))
  {
    var n := |times|;
    var now := times[n - 1];
    var prev := times[..n - 1];
    if n == 1 {
      assert Recent([now], now - Window) == [now] by {
        assert [now][1..] == [];
      }
    } else {
      assert Nondecreasing(prev) by {
        forall i, j | 0 <= i <= j < |prev|
          ensures prev[i] <= prev[j]
        {
          assert prev[i] == times[i] && prev[j] == times[j];
        }
      }
      RunKeepsWindow(prev);
      assert prev[n - 2] == times[n - 2] <= now;
      AttemptKeepsWindow(Run(prev).0, prev[n - 2], now);
    }
  }

  /// The limit: at every login attempt, at most ten attempts from that
  /// address were let through in the sixty seconds that end there.
  lemma AtMostTenPerWindow(times: seq<int>)
    requires |times| > 0 && Nondecreasing(times)
    ensures |Recent(Run(times).0, times[|times| - 1] - Window)| <= MaxLoginAttempts
  {
    RunKeepsWindow(times);
    RunBounded(times);
  }

  /// The stored list never holds more than the limit.
  lemma {:induction false} RunBounded(times: seq<int>)
    ensures Run(times).1.None? || |Run(times).1.value| <= MaxLoginAttempts
  {
    if |times| > 0 {
      RunBounded(times[..|times| - 1]);
    }
  }
}
