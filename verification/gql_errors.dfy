// Error-code extraction on the mobile client (mobileapp/src/gqlErrors.ts).
// The error is a dynamically typed JavaScript value; the model keeps the
// parts the helpers look at.

module GqlErrors {
  import opened Common
  import opened Text

  /// A JavaScript value as far as the helpers inspect it: a string or
  /// anything else.
  datatype Value = JsString(s: string) | JsOther

  /// An entry of `graphQLErrors`: an object whose `extensions.code` is a
  /// string (Some) or is not (None: absent or of another type), or an
  /// array-shaped legacy entry.
  datatype Entry = ErrorObject(code: Option<string>) | ErrorArray(items: seq<Value>)

  /// `networkError`: its `message` when truthy, and its `status` when a
  /// number.
  datatype NetworkError = NetworkError(message: Option<string>, status: Option<int>)

  /// The error argument: `null`/`undefined`, another falsy value, or an
  /// object with an array of GraphQL errors (None when `graphQLErrors` is
  /// not an array), a top-level `extensions.code` that is a string, and a
  /// network error (None when falsy).
  datatype ErrorValue =
    | NullOrUndefined
    | OtherFalsy
    | ErrorObj(graphQLErrors: Option<seq<Entry>>, extCode: Option<string>, network: Option<NetworkError>)

  /// The strings among the values, in order.
  function Strings(items: seq<Value>): (r: seq<string>)
    ensures forall c :: c in r <==> JsString(c) in items
  {
    if |items| == 0 then []
    else (if items[0].JsString? then [items[0].s] else []) + Strings(items[1..])
  }

  /// The codes one entry contributes.
  function EntryCodes(e: Entry): seq<string>
  {
    match e
    case ErrorObject(code) => if code.Some? then [code.value] else []
    case ErrorArray(items) => Strings(items)
  }

  /// The codes of the entries, in order.
  function EntriesCodes(entries: seq<Entry>): (r: seq<string>)
    ensures forall c :: c in r <==> exists i :: 0 <= i < |entries| && c in EntryCodes(entries[i])
  {
    if |entries| == 0 then []
    else
      var rest := EntriesCodes(entries[1..]);
      assert forall i :: 1 <= i < |entries| ==> entries[i] == entries[1..][i - 1];
      EntryCodes(entries[0]) + rest
  }

  /// Every code pushed before deduplication, in push order.
  function RawCodes(error: ErrorValue): seq<string>
  {
    match error
    case ErrorObj(gql, ext, _) =>
      (if gql.Some? then EntriesCodes(gql.value) else []) + (if ext.Some? then [ext.value] else [])
    case _ => []
  }

  /// Position of the first occurrence of `x`.
  function IndexOf(xs: seq<string>, x: string): (i: nat)
    requires x in xs
    ensures i < |xs| && xs[i] == x && x !in xs[..i]
  {
    if xs[0] == x then 0 else 1 + IndexOf(xs[1..], x)
  }

  /// `Array.from(new Set(xs))`: each value once, at its first occurrence.
  function Dedup(xs: seq<string>): (r: seq<string>)
    ensures forall c :: c in r <==> c in xs
    ensures forall i, j :: 0 <= i < j < |r| ==> r[i] != r[j]
  {
    if |xs| == 0 then []
    else
      var d := Dedup(xs[..|xs| - 1]);
      assert forall c :: c in xs <==> c in xs[..|xs| - 1] || c == xs[|xs| - 1] by {
        assert xs == xs[..|xs| - 1] + [xs[|xs| - 1]];
      }
      if xs[|xs| - 1] in d then d else d + [xs[|xs| - 1]]
  }

  /// `getErrorCodes` as a value.
  function ErrorCodes(error: ErrorValue): seq<string>
  {
    Dedup(RawCodes(error))
  }

  /// `getErrorCodes`: collects the codes with `push`, then drops repeats.
  method GetErrorCodes(error: ErrorValue) returns (codes: seq<string>)
    ensures codes == ErrorCodes(error)
  {
    if !error.ErrorObj? {
      return [];
    }
    var pushed: seq<string> := [];
    if error.graphQLErrors.Some? {
      pushed := CollectEntries(error.graphQLErrors.value);
    }
    if error.extCode.Some? {
      pushed := pushed + [error.extCode.value];
    }
    assert pushed == RawCodes(error);
    codes := Unique(pushed);
  }

  /// The loop over `graphQLErrors`.
  method CollectEntries(entries: seq<Entry>) returns (pushed: seq<string>)
    ensures pushed == EntriesCodes(entries)
  {
    pushed := [];
    var i := 0;
    while i < |entries|
      invariant 0 <= i <= |entries|
      invariant pushed == EntriesCodes(entries[..i])
    {
      EntriesCodesAppend(entries[..i], entries[i]);
      assert entries[..i + 1] == entries[..i] + [entries[i]];
      match entries[i] {
        case ErrorObject(code) =>
          if code.Some? {
            pushed := pushed + [code.value];
          }
        case ErrorArray(items) =>
          pushed := PushStrings(pushed, items);
      }
      i := i + 1;
    }
    assert entries[..|entries|] == entries;
  }

  /// The inner loop over an array-shaped entry.
  method PushStrings(start: seq<string>, items: seq<Value>) returns (pushed: seq<string>)
    ensures pushed == start + Strings(items)
  {
    pushed := start;
    var j := 0;
    while j < |items|
      invariant 0 <= j <= |items|
      invariant pushed == start + Strings(items[..j])
    {
      StringsAppend(items[..j], items[j]);
      assert items[..j + 1] == items[..j] + [items[j]];
      if items[j].JsString? {
        pushed := pushed + [items[j].s];
      }
      j := j + 1;
    }
    assert items[..|items|] == items;
  }

  /// The order-keeping deduplication through a set of seen values.
  method Unique(xs: seq<string>) returns (r: seq<string>)
    ensures r == Dedup(xs)
  {
    r := [];
    var seen: set<string> := {};
    var i := 0;
    while i < |xs|
      invariant 0 <= i <= |xs|
      invariant r == Dedup(xs[..i])
      invariant forall c :: c in seen <==> c in r
    {
      assert xs[..i + 1][..i] == xs[..i];
      if xs[i] !in seen {
        seen := seen + {xs[i]};
        r := r + [xs[i]];
      }
      i := i + 1;
    }
    assert xs[..|xs|] == xs;
  }

  /// `hasCode`.
  function HasCode(error: ErrorValue, code: string): (r: bool)
    ensures r <==> code in RawCodes(error)
  {
    code in ErrorCodes(error)
  }

  /// The offline patterns of Apollo and fetch: a network error whose
  /// message mentions "Network request failed" or "Failed to fetch", or
  /// whose status is 0.
  predicate OfflineNetworkError(error: ErrorValue)
  {
    error.ErrorObj? && error.network.Some? &&
    var n := error.network.value;
    (n.message.Some? && (Contains(n.message.value, NetworkRequestFailed) || Contains(n.message.value, FailedToFetch))) ||
    n.status == Some(0)
  }

  const NetworkRequestFailed := "Network request failed"
  const FailedToFetch := "Failed to fetch"

  /// `isOfflineError`; None when reading `networkError` throws, which it
  /// does on `null` and `undefined`.
  function IsOfflineError(error: ErrorValue): (r: Option<bool>)
    ensures r.None? <==> error.NullOrUndefined?
    ensures r == Some(true) ==> error.ErrorObj? && error.network.Some?
    ensures !error.NullOrUndefined? && OfflineNetworkError(error) ==> r == Some(true)
    ensures !error.NullOrUndefined? && !OfflineNetworkError(error) ==> r == Some(false)
  {
    match error
    case NullOrUndefined => None
    case OtherFalsy => Some(false)
    case ErrorObj(_, _, network) =>
      if network.None? then Some(false)
      else
        var msg := network.value.message.UnwrapOr("");
        Some(Contains(msg, NetworkRequestFailed) || Contains(msg, FailedToFetch) ||
             network.value.status == Some(0))
  }

  // ---------------------------------------------------------------------
  // Properties
  // ---------------------------------------------------------------------

  lemma {:induction false} StringsAppend(items: seq<Value>, v: Value)
    ensures Strings(items + [v]) == Strings(items) + (if v.JsString? then [v.s] else [])
  {
    if |items| > 0 {
      StringsAppend(items[1..], v);
      assert (items + [v])[1..] == items[1..] + [v];
    } else {
      assert [v][1..] == [];
    }
  }

  lemma {:induction false} EntriesCodesAppend(entries: seq<Entry>, e: Entry)
    ensures EntriesCodes(entries + [e]) == EntriesCodes(entries) + EntryCodes(e)
  {
    if |entries| > 0 {
      EntriesCodesAppend(entries[1..], e);
      assert (entries + [e])[1..] == entries[1..] + [e];
    } else {
      assert [e][1..] == [];
    }
  }

  /// The values of `r` occur in `xs`, and in the order of their first
  /// occurrences there.
  ghost predicate InFirstOrder(xs: seq<string>, r: seq<string>)
  {
    (forall c :: c in r ==> c in xs) &&
    forall i, j :: 0 <= i < j < |r| ==> IndexOf(xs, r[i]) < IndexOf(xs, r[j])
  }

  /// The codes keep first-occurrence order: a code listed before another
  /// first appeared before it.
  lemma {:induction false} DedupKeepsFirstOrder(xs: seq<string>)
    ensures InFirstOrder(xs, Dedup(xs))
  {
    if |xs| > 0 {
      var n := |xs| - 1;
      var front := xs[..n];
      assert front + [xs[n]] == xs;
      DedupKeepsFirstOrder(front);
      FirstOrderExtends(front, xs[n], Dedup(front));
    }
  }

  /// Appending a value keeps the order of what was there, and a value not
  /// seen before goes after all of it.
  lemma FirstOrderExtends(front: seq<string>, x: string, d: seq<string>)
    requires InFirstOrder(front, d)
    ensures InFirstOrder(front + [x], d)
    ensures x !in front ==> InFirstOrder(front + [x], d + [x])
  {
    var xs := front + [x];
    forall c | c in front
      ensures IndexOf(xs, c) == IndexOf(front, c) < |front|
    {
      IndexOfPrefix(front, x, c);
    }
    if x !in front {
      assert IndexOf(xs, x) == |front| by {
        assert xs[..|front|] == front;
      }
      var r := d + [x];
      forall i, j | 0 <= i < j < |r|
        ensures IndexOf(xs, r[i]) < IndexOf(xs, r[j])
      {
        assert r[i] == d[i] && d[i] in front;
        if j < |d| {
          assert r[j] == d[j] && d[j] in front;
        }
      }
    }
  }

  /// The first occurrence of a value in a prefix is its first occurrence
  /// in the whole.
  lemma {:induction false} IndexOfPrefix(xs: seq<string>, y: string, x: string)
    requires x in xs
    ensures IndexOf(xs + [y], x) == IndexOf(xs, x)
  {
    if xs[0] != x {
      IndexOfPrefix(xs[1..], y, x);
      assert (xs + [y])[1..] == xs[1..] + [y];
    }
  }

  /// Without codes anywhere the list is empty; a falsy error has none.
  lemma FalsyHasNoCodes(error: ErrorValue)
    requires !error.ErrorObj?
    ensures ErrorCodes(error) == [] && forall c :: !HasCode(error, c)
  {
  }

  /// A network error carrying either offline phrase anywhere in its
  /// message, or status 0, is offline; one with a message holding neither
  /// phrase and another status is not; an error without a network part is
  /// never offline.
  lemma OfflinePatterns(prefix: string, suffix: string, status: Option<int>, other: string,
                        codes: Option<seq<Entry>>, ext: Option<string>)
    ensures IsOfflineError(ErrorObj(codes, ext, Some(NetworkError(Some(prefix + NetworkRequestFailed + suffix), status))))
              == Some(true)
    ensures IsOfflineError(ErrorObj(codes, ext, Some(NetworkError(Some(prefix + FailedToFetch + suffix), status))))
              == Some(true)
    ensures IsOfflineError(ErrorObj(codes, ext, Some(NetworkError(None, Some(0))))) == Some(true)
    ensures !Contains(other, NetworkRequestFailed) && !Contains(other, FailedToFetch) && status != Some(0) ==>
              IsOfflineError(ErrorObj(codes, ext, Some(NetworkError(Some(other), status)))) == Some(false)
    ensures IsOfflineError(ErrorObj(codes, ext, None)) == Some(false)
    ensures IsOfflineError(OtherFalsy) == Some(false)
  {
    ContainsInfix(prefix, NetworkRequestFailed, suffix);
    ContainsInfix(prefix, FailedToFetch, suffix);
  }

  /// A text occurs in any text that has it in the middle.
  lemma ContainsInfix(prefix: string, part: string, suffix: string)
    ensures Contains(prefix + part + suffix, part)
  {
    var s := prefix + part + suffix;
    assert s[|prefix|..|prefix| + |part|] == part;
    assert OccursAt(s, part, |prefix|);
  }
}
