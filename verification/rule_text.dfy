// RRULE normalisation for date-only series
// (server/src/graphql/takenlijst/create_recurring_series.rs and the same
// code in mutations/update_recurring_series.rs): without a start time the
// `;`-separated parts that pin an hour, minute or second are dropped.

module RuleText {
  import opened Text

  predicate StartsWith(s: string, prefix: string)
  {
    |prefix| <= |s| && s[..|prefix|] == prefix
  }

  /// A part whose ASCII upper-case form starts with BYHOUR=, BYMINUTE= or BYSECOND=.
  predicate TimePart(part: string)
  {
    var up := AsciiUpper(part);
    StartsWith(up, "BYHOUR=") || StartsWith(up, "BYMINUTE=") || StartsWith(up, "BYSECOND=")
  }

  /// The parts that are not time parts, in their original order.
  function KeptParts(parts: seq<string>): (kept: seq<string>)
    ensures |kept| <= |parts|
    ensures forall p :: p in kept <==> p in parts && !TimePart(p)
  {
    if |parts| == 0 then []
    else if TimePart(parts[0]) then KeptParts(parts[1..])
    else [parts[0]] + KeptParts(parts[1..])
  }

  /// The rule text stored for a series: unchanged when the series has a
  /// start time, else with its time parts removed.
  function NormalizeRule(rule: string, hasTime: bool): (r: string)
    ensures hasTime ==> r == rule
  {
    if hasTime then rule else Join(KeptParts(Split(rule, ';')), ';')
  }

  // ---------------------------------------------------------------------
  // Properties
  // ---------------------------------------------------------------------

  /// A single part is kept exactly when it is not a time part.
  lemma KeptPartsSingle(p: string)
    ensures KeptParts([p]) == if TimePart(p) then [] else [p]
  {
    assert [p][1..] == [];
  }

  /// Filtering distributes over concatenation: the kept parts keep their
  /// order and their number of occurrences.
  lemma {:induction false} KeptPartsAppend(a: seq<string>, b: seq<string>)
    ensures KeptParts(a + b) == KeptParts(a) + KeptParts(b)
  {
    if |a| == 0 {
      assert a + b == b;
    } else {
      assert (a + b)[0] == a[0] && (a + b)[1..] == a[1..] + b;
      KeptPartsAppend(a[1..], b);
      if !TimePart(a[0]) {
        assert [a[0]] + (KeptParts(a[1..]) + KeptParts(b)) == ([a[0]] + KeptParts(a[1..])) + KeptParts(b);
      }
    }
  }

  /// Filtering parts that are already free of time parts keeps all of them.
  lemma {:induction false} KeptPartsOfKept(parts: seq<string>)
    requires forall p :: p in parts ==> !TimePart(p)
    ensures KeptParts(parts) == parts
  {
    if |parts| > 0 {
      KeptPartsOfKept(parts[1..]);
      assert [parts[0]] + parts[1..] == parts;
    }
  }

  /// The normalised rule of a date-only series splits into exactly the
  /// non-time parts of the original rule, in order.
  lemma DateOnlyRuleParts(rule: string)
    requires KeptParts(Split(rule, ';')) != []
    ensures Split(NormalizeRule(rule, false), ';') == KeptParts(Split(rule, ';'))
    ensures forall p :: p in Split(NormalizeRule(rule, false), ';') ==> !TimePart(p)
  {
    SplitJoin(KeptParts(Split(rule, ';')), ';');
  }

  /// Normalising twice gives the same rule as normalising once.
  lemma NormalizeIdempotent(rule: string, hasTime: bool)
    ensures NormalizeRule(NormalizeRule(rule, hasTime), hasTime) == NormalizeRule(rule, hasTime)
  {
    if !hasTime {
      var kept := KeptParts(Split(rule, ';'));
      if kept == [] {
        assert NormalizeRule(rule, false) == "";
        assert Split("", ';') == [""];
        assert !TimePart("");
        assert KeptParts([""]) == [""];
      } else {
        DateOnlyRuleParts(rule);
        KeptPartsOfKept(kept);
      }
    }
  }

  /// A concrete instance: a daily rule pinned to 09:00 loses its hour part.
  lemma StripsPinnedHour()
    ensures NormalizeRule("FREQ=DAILY;byhour=9", false) == "FREQ=DAILY"
  {
    var parts := ["FREQ=DAILY", "byhour=9"];
    SplitsIntoTwo(parts);
    ClassifiesExampleParts();
    assert KeptParts(parts[1..]) == [];
    assert KeptParts(parts) == ["FREQ=DAILY"];
  }

  lemma SplitsIntoTwo(parts: seq<string>)
    requires parts == ["FREQ=DAILY", "byhour=9"]
    ensures Split("FREQ=DAILY;byhour=9", ';') == parts
  {
    assert Join(parts, ';') == "FREQ=DAILY;byhour=9";
    SplitJoin(parts, ';');
  }

  lemma ClassifiesExampleParts()
    ensures TimePart("byhour=9") && !TimePart("FREQ=DAILY")
  {
    assert AsciiUpper("byhour=9")[..7] == "BYHOUR=";
    var up := AsciiUpper("FREQ=DAILY");
    assert up[0] == 'F';
    assert up[..7][0] != "BYHOUR="[0];
    assert up[..9][0] != "BYMINUTE="[0] && up[..9][0] != "BYSECOND="[0];
  }
}
