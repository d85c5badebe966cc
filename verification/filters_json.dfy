// The filters of a saved view (server/src/graphql/takenlijst/types/
// saved_view_filters.rs) and the JSON text the resolvers store in the
// `filters` column. Serialisation writes the compact form serde_json's
// `to_string` produces: the fields in declaration order, no white space,
// statuses as lower-case strings and ids as strings. Ids are counters in
// this model, so an id's string is its decimal digits and never needs an
// escape. The decoder reads back exactly that layout.

module FiltersJson {
  import opened Common
  import opened Classifier

  datatype Filters = Filters(
    statuses: seq<TaskStatus>,
    assignee: Option<Id>,
    includeUnassigned: bool,
    assignedToMe: bool,
    tagIds: seq<Id>)

  // ---------------------------------------------------------------------
  // Scalars
  // ---------------------------------------------------------------------

  predicate IsDigit(c: char)
  {
    '0' <= c <= '9'
  }

  predicate AllDigits(s: string)
  {
    forall i :: 0 <= i < |s| ==> IsDigit(s[i])
  }

  /// Digit strings without a superfluous leading zero.
  predicate Canonical(s: string)
  {
    |s| > 0 && AllDigits(s) && (|s| > 1 ==> s[0] != '0')
  }

  function DigitChar(d: nat): (c: char)
    requires d < 10
    ensures IsDigit(c) && c as int - '0' as int == d
  {
    ('0' as int + d) as char
  }

  /// The decimal text of an id.
  function Decimal(n: nat): (s: string)
    ensures Canonical(s)
  {
    if n < 10 then [DigitChar(n)] else Decimal(n / 10) + [DigitChar(n % 10)]
  }

  /// The number a digit string denotes.
  function DigitsValue(s: string): (n: nat)
    requires AllDigits(s)
  {
    if |s| == 0 then 0 else DigitsValue(s[..|s| - 1]) * 10 + (s[|s| - 1] as int - '0' as int)
  }

  /// Length of the run of digits that starts `s`.
  function DigitRun(s: string): (n: nat)
    ensures n <= |s| && AllDigits(s[..n])
    ensures n < |s| ==> !IsDigit(s[n])
  {
    if |s| > 0 && IsDigit(s[0]) then
      var n := 1 + DigitRun(s[1..]);
      assert forall i :: 1 <= i < n ==> s[..n][i] == s[1..][..n - 1][i - 1];
      n
    else 0
  }

  /// A JSON string the encoder writes without escapes: no quote, no
  /// backslash and no control character.
  predicate Plain(w: string)
  {
    forall i :: 0 <= i < |w| ==> w[i] != '"' && w[i] != '\\' && w[i] >= ' '
  }

  function Quoted(w: string): string
  {
    "\"" + w + "\""
  }

  /// Length of the stretch of `s` before its first double quote.
  function QuoteFree(s: string): (n: nat)
    ensures n <= |s| && forall i :: 0 <= i < n ==> s[i] != '"'
    ensures n < |s| ==> s[n] == '"'
  {
    if |s| > 0 && s[0] != '"' then 1 + QuoteFree(s[1..]) else 0
  }

  /// A JSON string at the front of `s`: its characters and what follows.
  function ParseQuoted(s: string): (r: Option<(string, string)>)
    ensures r.Some? ==> |r.value.1| + 2 <= |s|
  {
    if |s| == 0 || s[0] != '"' then None
    else
      var n := QuoteFree(s[1..]);
      if n < |s| - 1 && Plain(s[1..1 + n]) then Some((s[1..1 + n], s[n + 2..])) else None
  }

  function StatusWord(x: TaskStatus): string
  {
    match x
    case Todo => "todo"
    case Done => "done"
    case Abandoned => "abandoned"
  }

  function StatusOfWord(w: string): Option<TaskStatus>
  {
    if w == "todo" then Some(Todo)
    else if w == "done" then Some(Done)
    else if w == "abandoned" then Some(Abandoned)
    else None
  }

  function IdOfWord(w: string): Option<Id>
  {
    if Canonical(w) then Some(DigitsValue(w)) else None
  }

  function BoolText(b: bool): string
  {
    if b then "true" else "false"
  }

  function ParseBool(s: string): Option<(bool, string)>
  {
    if "true" <= s then Some((true, s[4..]))
    else if "false" <= s then Some((false, s[5..]))
    else None
  }

  function AssigneeText(a: Option<Id>): string
  {
    match a
    case None => "null"
    case Some(n) => Quoted(Decimal(n))
  }

  function ParseAssignee(s: string): Option<(Option<Id>, string)>
  {
    if "null" <= s then Some((None, s[4..]))
    else
      match ParseQuoted(s)
      case None => None
      case Some((w, rest)) =>
        match IdOfWord(w)
        case None => None
        case Some(n) => Some((Some(n), rest))
  }

  /// Removes `lit` from the front of `s`, if it is there.
  function Strip(lit: string, s: string): (r: Option<string>)
    ensures r.Some? <==> lit <= s
    ensures r.Some? ==> s == lit + r.value
  {
    if lit <= s then Some(s[|lit|..]) else None
  }

  // ---------------------------------------------------------------------
  // Arrays of strings
  // ---------------------------------------------------------------------

  /// The quoted words separated by commas.
  function WordsText(ws: seq<string>): string
  {
    if |ws| == 0 then ""
    else if |ws| == 1 then Quoted(ws[0])
    else Quoted(ws[0]) + "," + WordsText(ws[1..])
  }

  function ArrayText(ws: seq<string>): string
  {
    "[" + WordsText(ws) + "]"
  }

  /// One or more strings separated by commas and closed by `]`.
  function ParseWords(s: string): (r: Option<(seq<string>, string)>)
    ensures r.Some? ==> |r.value.1| < |s|
    decreases |s|
  {
    match ParseQuoted(s)
    case None => None
    case Some((w, rest)) =>
      if "]" <= rest then Some(([w], rest[1..]))
      else if "," <= rest then
        match ParseWords(rest[1..])
        case None => None
        case Some((ws, tail)) => Some(([w] + ws, tail))
      else None
  }

  /// An array of strings at the front of `s`.
  function ParseArray(s: string): Option<(seq<string>, string)>
  {
    if "[]" <= s then Some(([], s[2..]))
    else if "[" <= s then ParseWords(s[1..])
    else None
  }

  function StatusWords(xs: seq<TaskStatus>): (ws: seq<string>)
    ensures |ws| == |xs|
  {
    if |xs| == 0 then [] else [StatusWord(xs[0])] + StatusWords(xs[1..])
  }

  function IdWords(xs: seq<Id>): (ws: seq<string>)
    ensures |ws| == |xs|
  {
    if |xs| == 0 then [] else [Decimal(xs[0])] + IdWords(xs[1..])
  }

  /// The statuses the words name, if every word names one.
  function StatusesOf(ws: seq<string>): Option<seq<TaskStatus>>
  {
    if |ws| == 0 then Some([])
    else
      match (StatusOfWord(ws[0]), StatusesOf(ws[1..]))
      case (Some(x), Some(xs)) => Some([x] + xs)
      case _ => None
  }

  /// The ids the words spell, if every word spells one.
  function IdsOf(ws: seq<string>): Option<seq<Id>>
  {
    if |ws| == 0 then Some([])
    else
      match (IdOfWord(ws[0]), IdsOf(ws[1..]))
      case (Some(x), Some(xs)) => Some([x] + xs)
      case _ => None
  }

  // ---------------------------------------------------------------------
  // The document
  // ---------------------------------------------------------------------

  const StatusesKey := "{\"statuses\":"
  const AssigneeKey := ",\"assignee\":"
  const IncludeUnassignedKey := ",\"includeUnassigned\":"
  const AssignedToMeKey := ",\"assignedToMe\":"
  const TagIdsKey := ",\"tagIds\":"

  /// `serde_json::to_string` of the filters.
  function Encode(f: Filters): string
  {
    StatusesKey + (ArrayText(StatusWords(f.statuses)) +
    (AssigneeKey + (AssigneeText(f.assignee) +
    (IncludeUnassignedKey + (BoolText(f.includeUnassigned) +
    (AssignedToMeKey + (BoolText(f.assignedToMe) +
    (TagIdsKey + (ArrayText(IdWords(f.tagIds)) + "}")))))))))
  }

  /// The tail of the document from the `tagIds` key on.
  function DecodeTagIds(s: string): Option<seq<Id>>
  {
    match Strip(TagIdsKey, s)
    case None => None
    case Some(s1) =>
      match ParseArray(s1)
      case None => None
      case Some((ws, s2)) => if s2 == "}" then IdsOf(ws) else None
  }

  /// The tail of the document from the `includeUnassigned` key on.
  function DecodeFlags(s: string): Option<(bool, bool, seq<Id>)>
  {
    match Strip(IncludeUnassignedKey, s)
    case None => None
    case Some(s1) =>
      match ParseBool(s1)
      case None => None
      case Some((inc, s2)) =>
        match Strip(AssignedToMeKey, s2)
        case None => None
        case Some(s3) =>
          match ParseBool(s3)
          case None => None
          case Some((mine, s4)) =>
            match DecodeTagIds(s4)
            case None => None
            case Some(ids) => Some((inc, mine, ids))
  }

  /// `serde_json::from_str` of the filters, for the layout `Encode` writes.
  function Decode(s: string): Option<Filters>
  {
    match Strip(StatusesKey, s)
    case None => None
    case Some(s1) =>
      match ParseArray(s1)
      case None => None
      case Some((ws, s2)) =>
        match (StatusesOf(ws), Strip(AssigneeKey, s2))
        case (Some(statuses), Some(s3)) =>
          (match ParseAssignee(s3)
           case None => None
           case Some((assignee, s4)) =>
             match DecodeFlags(s4)
             case None => None
             case Some((inc, mine, ids)) => Some(Filters(statuses, assignee, inc, mine, ids)))
        case _ => None
  }

  // ---------------------------------------------------------------------
  // Properties
  // ---------------------------------------------------------------------

  /// Reading a literal off the front of `lit + x` leaves `x`.
  lemma StripFront(lit: string, x: string)
    ensures Strip(lit, lit + x) == Some(x)
  {
    assert (lit + x)[|lit|..] == x;
  }

  /// An id's decimal text denotes the id.
  lemma {:induction false} DecimalValue(n: nat)
    ensures DigitsValue(Decimal(n)) == n
  {
    if n >= 10 {
      DecimalValue(n / 10);
      var s := Decimal(n);
      assert s[..|s| - 1] == Decimal(n / 10);
    }
  }

  /// A digit string that does not start with a zero denotes a positive
  /// number.
  lemma {:induction false} LeadingDigitPositive(s: string)
    requires |s| > 0 && AllDigits(s) && s[0] != '0'
    ensures DigitsValue(s) > 0
  {
    if |s| > 1 {
      LeadingDigitPositive(s[..|s| - 1]);
    }
  }

  /// A canonical digit string is the decimal text of what it denotes, so
  /// each id has exactly one text.
  lemma {:induction false} CanonicalIsDecimal(s: string)
    requires Canonical(s)
    ensures Decimal(DigitsValue(s)) == s
  {
    if |s| > 1 {
      var init := s[..|s| - 1];
      LeadingDigitPositive(init);
      CanonicalIsDecimal(init);
      var n := DigitsValue(s);
      assert n / 10 == DigitsValue(init) && n % 10 == s[|s| - 1] as int - '0' as int;
      assert s == init + [s[|s| - 1]];
    }
  }


  /// Decimal digits need no escape.
  lemma DecimalIsPlain(n: nat)
    ensures Plain(Decimal(n))
  {
  }

  lemma {:induction false} QuotedReadBack(w: string, rest: string)
    requires Plain(w)
    ensures ParseQuoted(Quoted(w) + rest) == Some((w, rest))
  {
    var s := Quoted(w) + rest;
    assert s[1..] == w + ("\"" + rest);
    var n := QuoteFree(s[1..]);
    assert forall i :: 0 <= i < |w| ==> s[1..][i] == w[i];
    assert s[1..][|w|] == '"';
    assert n == |w|;
    assert s[1..1 + n] == w;
    assert s[n + 2..] == rest;
  }

  lemma QuotedOnlyReads(s: string)
    ensures ParseQuoted(s).Some? ==> s == Quoted(ParseQuoted(s).value.0) + ParseQuoted(s).value.1
  {
    if ParseQuoted(s).Some? {
      var n := QuoteFree(s[1..]);
      assert s == [s[0]] + s[1..1 + n] + [s[1 + n]] + s[n + 2..];
    }
  }

  /// One string closed by `]`.
  lemma LastWordReadBack(w: string, rest: string)
    requires Plain(w)
    ensures ParseWords(Quoted(w) + ("]" + rest)) == Some(([w], rest))
  {
    QuotedReadBack(w, "]" + rest);
    assert ("]" + rest)[1..] == rest;
  }

  /// One string followed by a comma and more strings.
  lemma NextWordReadBack(w: string, tail: string)
    requires Plain(w)
    ensures var r := ParseWords(tail);
            ParseWords(Quoted(w) + ("," + tail)) == if r.Some? then Some(([w] + r.value.0, r.value.1)) else None
  {
    QuotedReadBack(w, "," + tail);
    assert ("," + tail)[0] == ',' && ("," + tail)[1..] == tail;
  }

  /// The text of two or more strings: the first, a comma, the others.
  lemma WordsShape(ws: seq<string>, rest: string)
    requires |ws| > 1
    ensures WordsText(ws) + "]" + rest == Quoted(ws[0]) + ("," + (WordsText(ws[1..]) + "]" + rest))
  {
  }

  lemma {:induction false} WordsReadBack(ws: seq<string>, rest: string)
    requires |ws| > 0 && forall i :: 0 <= i < |ws| ==> Plain(ws[i])
    ensures ParseWords(WordsText(ws) + "]" + rest) == Some((ws, rest))
  {
    if |ws| == 1 {
      assert WordsText(ws) + "]" + rest == Quoted(ws[0]) + ("]" + rest);
      LastWordReadBack(ws[0], rest);
      assert [ws[0]] == ws;
    } else {
      WordsReadBack(ws[1..], rest);
      WordsShape(ws, rest);
      NextWordReadBack(ws[0], WordsText(ws[1..]) + "]" + rest);
      assert [ws[0]] + ws[1..] == ws;
    }
  }

  /// Reading back an array's text yields its strings and the rest.
  lemma ArrayReadBack(ws: seq<string>, rest: string)
    requires forall i :: 0 <= i < |ws| ==> Plain(ws[i])
    ensures ParseArray(ArrayText(ws) + rest) == Some((ws, rest))
  {
    if |ws| == 0 {
      assert ArrayText(ws) + rest == "[]" + rest;
      StripFront("[]", rest);
    } else {
      var inner := WordsText(ws) + "]" + rest;
      assert WordsText(ws)[0] == '"';
      assert ArrayText(ws) + rest == "[" + inner;
      StripFront("[", inner);
      WordsReadBack(ws, rest);
    }
  }

  /// A string, a comma and the text of more strings is the text of them all.
  lemma ConsWordsText(w: string, ws: seq<string>, tail: string, r: string)
    requires |ws| > 0 && r == "," + (WordsText(ws) + "]" + tail)
    ensures Quoted(w) + r == WordsText([w] + ws) + "]" + tail
  {
    WordsShape([w] + ws, tail);
    assert ([w] + ws)[1..] == ws;
  }

  lemma {:induction false} WordsOnlyRead(s: string)
    ensures ParseWords(s).Some? ==>
      |ParseWords(s).value.0| > 0 && s == WordsText(ParseWords(s).value.0) + "]" + ParseWords(s).value.1
    decreases |s|
  {
    if ParseWords(s).Some? {
      QuotedOnlyReads(s);
      var (w, r) := ParseQuoted(s).value;
      if "]" <= r {
        assert r == "]" + r[1..];
      } else {
        WordsOnlyRead(r[1..]);
        var (ws, tail) := ParseWords(r[1..]).value;
        assert r == "," + r[1..];
        ConsWordsText(w, ws, tail, r);
      }
    }
  }

  lemma ArrayOnlyReads(s: string)
    ensures ParseArray(s).Some? ==> s == ArrayText(ParseArray(s).value.0) + ParseArray(s).value.1
  {
    if "[]" <= s {
      assert s == "[]" + s[2..];
    } else if "[" <= s {
      WordsOnlyRead(s[1..]);
      assert s == "[" + s[1..];
    }
  }

  lemma {:induction false} StatusesReadBack(xs: seq<TaskStatus>)
    ensures forall i :: 0 <= i < |xs| ==> Plain(StatusWords(xs)[i])
    ensures StatusesOf(StatusWords(xs)) == Some(xs)
  {
    if |xs| > 0 {
      StatusesReadBack(xs[1..]);
      assert StatusWords(xs)[1..] == StatusWords(xs[1..]);
      assert [xs[0]] + xs[1..] == xs;
    }
  }

  lemma {:induction false} StatusesOnlyOf(ws: seq<string>)
    ensures StatusesOf(ws).Some? ==> StatusWords(StatusesOf(ws).value) == ws
  {
    if |ws| > 0 && StatusesOf(ws).Some? {
      StatusesOnlyOf(ws[1..]);
      var xs := StatusesOf(ws).value;
      assert xs[1..] == StatusesOf(ws[1..]).value;
      assert [ws[0]] + ws[1..] == ws;
    }
  }

  lemma {:induction false} IdsReadBack(xs: seq<Id>)
    ensures forall i :: 0 <= i < |xs| ==> Plain(IdWords(xs)[i])
    ensures IdsOf(IdWords(xs)) == Some(xs)
  {
    if |xs| > 0 {
      IdsReadBack(xs[1..]);
      DecimalValue(xs[0]);
      DecimalIsPlain(xs[0]);
      assert IdWords(xs)[1..] == IdWords(xs[1..]);
      assert [xs[0]] + xs[1..] == xs;
    }
  }

  lemma {:induction false} IdsOnlyOf(ws: seq<string>)
    ensures IdsOf(ws).Some? ==> IdWords(IdsOf(ws).value) == ws
  {
    if |ws| > 0 && IdsOf(ws).Some? {
      IdsOnlyOf(ws[1..]);
      CanonicalIsDecimal(ws[0]);
      var xs := IdsOf(ws).value;
      assert xs[1..] == IdsOf(ws[1..]).value;
      assert [ws[0]] + ws[1..] == ws;
    }
  }

  lemma BoolReadBack(b: bool, rest: string)
    ensures ParseBool(BoolText(b) + rest) == Some((b, rest))
  {
    if b {
      assert ("true" + rest)[4..] == rest;
    } else {
      assert ("false" + rest)[0] == 'f' && ("false" + rest)[5..] == rest;
    }
  }

  lemma BoolOnlyReads(s: string)
    ensures ParseBool(s).Some? ==> s == BoolText(ParseBool(s).value.0) + ParseBool(s).value.1
  {
    if "true" <= s {
      assert s == "true" + s[4..];
    } else if "false" <= s {
      assert s == "false" + s[5..];
    }
  }

  lemma AssigneeReadBack(a: Option<Id>, rest: string)
    ensures ParseAssignee(AssigneeText(a) + rest) == Some((a, rest))
  {
    match a
    case None =>
      StripFront("null", rest);
    case Some(n) =>
      DecimalIsPlain(n);
      QuotedReadBack(Decimal(n), rest);
      DecimalValue(n);
  }

  lemma AssigneeOnlyReads(s: string)
    ensures ParseAssignee(s).Some? ==>
      s == AssigneeText(ParseAssignee(s).value.0) + ParseAssignee(s).value.1
  {
    if "null" <= s {
      assert s == "null" + s[4..];
    } else if ParseAssignee(s).Some? {
      QuotedOnlyReads(s);
      CanonicalIsDecimal(ParseQuoted(s).value.0);
    }
  }

  /// The text written for the tag ids reads back as those ids.
  lemma TagIdsReadBack(ids: seq<Id>)
    ensures DecodeTagIds(TagIdsKey + (ArrayText(IdWords(ids)) + "}")) == Some(ids)
  {
    IdsReadBack(ids);
    ArrayReadBack(IdWords(ids), "}");
    StripFront(TagIdsKey, ArrayText(IdWords(ids)) + "}");
  }

  /// The text written for the flags and tag ids reads back as them.
  lemma FlagsReadBack(inc: bool, mine: bool, ids: seq<Id>)
    ensures DecodeFlags(IncludeUnassignedKey + (BoolText(inc) + (AssignedToMeKey + (BoolText(mine) +
            (TagIdsKey + (ArrayText(IdWords(ids)) + "}")))))) == Some((inc, mine, ids))
  {
    var tagsPart := TagIdsKey + (ArrayText(IdWords(ids)) + "}");
    TagIdsReadBack(ids);
    BoolReadBack(mine, tagsPart);
    var minePart := BoolText(mine) + tagsPart;
    StripFront(AssignedToMeKey, minePart);
    BoolReadBack(inc, AssignedToMeKey + minePart);
    StripFront(IncludeUnassignedKey, BoolText(inc) + (AssignedToMeKey + minePart));
  }

  /// Decoding the stored text of some filters gives those filters back.
  lemma DecodeEncode(f: Filters)
    ensures Decode(Encode(f)) == Some(f)
  {
    var flags := IncludeUnassignedKey + (BoolText(f.includeUnassigned) + (AssignedToMeKey +
                 (BoolText(f.assignedToMe) + (TagIdsKey + (ArrayText(IdWords(f.tagIds)) + "}")))));
    FlagsReadBack(f.includeUnassigned, f.assignedToMe, f.tagIds);
    var asgTail := AssigneeText(f.assignee) + flags;
    AssigneeReadBack(f.assignee, flags);
    StripFront(AssigneeKey, asgTail);
    var stTail := ArrayText(StatusWords(f.statuses)) + (AssigneeKey + asgTail);
    StatusesReadBack(f.statuses);
    ArrayReadBack(StatusWords(f.statuses), AssigneeKey + asgTail);
    StripFront(StatusesKey, stTail);
  }

  /// The tag ids are read only from the text that writes them.
  lemma TagIdsOnlyRead(s: string)
    ensures DecodeTagIds(s).Some? ==> s == TagIdsKey + (ArrayText(IdWords(DecodeTagIds(s).value)) + "}")
  {
    if DecodeTagIds(s).Some? {
      var u1 := Strip(TagIdsKey, s).value;
      ArrayOnlyReads(u1);
      IdsOnlyOf(ParseArray(u1).value.0);
    }
  }

  /// The flags and tag ids are read only from the text that writes them.
  lemma FlagsOnlyRead(s: string)
    ensures DecodeFlags(s).Some? ==>
      var (inc, mine, ids) := DecodeFlags(s).value;
      s == IncludeUnassignedKey + (BoolText(inc) + (AssignedToMeKey + (BoolText(mine) +
           (TagIdsKey + (ArrayText(IdWords(ids)) + "}")))))
  {
    if DecodeFlags(s).Some? {
      var t1 := Strip(IncludeUnassignedKey, s).value;
      BoolOnlyReads(t1);
      var t2 := ParseBool(t1).value.1;
      var t3 := Strip(AssignedToMeKey, t2).value;
      BoolOnlyReads(t3);
      var t4 := ParseBool(t3).value.1;
      TagIdsOnlyRead(t4);
    }
  }

  /// Decoding accepts only text that `Encode` writes.
  lemma EncodeDecode(s: string)
    ensures Decode(s).Some? ==> Encode(Decode(s).value) == s
  {
    if Decode(s).Some? {
      var s1 := Strip(StatusesKey, s).value;
      ArrayOnlyReads(s1);
      var (ws, s2) := ParseArray(s1).value;
      StatusesOnlyOf(ws);
      var s3 := Strip(AssigneeKey, s2).value;
      AssigneeOnlyReads(s3);
      var s4 := ParseAssignee(s3).value.1;
      FlagsOnlyRead(s4);
    }
  }

  /// The stored text and the filters determine each other.
  lemma EncodingIsCanonical(s: string, f: Filters)
    ensures Decode(s) == Some(f) <==> s == Encode(f)
  {
    DecodeEncode(f);
    EncodeDecode(s);
  }
}
