// The web client's application name (webapp/src/appMeta.ts): the build's
// application id, and the title made from it by splitting camel case and
// separators into words and capitalising each word.

module AppMeta {
  import opened Common
  import opened Text

  const Placeholder := "placeholder"

  /// `getAppId`: `VITE_APP_ID` from the build environment, or
  /// "placeholder" when it is unset or empty.
  function GetAppId(viteAppId: Option<string>): (r: string)
    ensures |r| > 0
    ensures viteAppId.Some? && |viteAppId.value| > 0 ==> r == viteAppId.value
    ensures viteAppId.None? || viteAppId.value == "" ==> r == Placeholder
  {
    if viteAppId.Some? && |viteAppId.value| > 0 then viteAppId.value else Placeholder
  }

  // ---------------------------------------------------------------------
  // Camel case
  // ---------------------------------------------------------------------

  predicate LowerOrDigit(c: char) { 'a' <= c <= 'z' || '0' <= c <= '9' }

  predicate Upper(c: char) { 'A' <= c <= 'Z' }

  predicate IsBlank(c: char) { c == ' ' }

  /// No lower-case letter or digit is directly followed by an upper-case
  /// letter.
  predicate NoCamelBoundary(s: string)
  {
    forall i :: 0 <= i < |s| - 1 ==> !(LowerOrDigit(s[i]) && Upper(s[i + 1]))
  }

  /// The number of camel-case boundaries in `s`.
  function CamelBoundaries(s: string): nat
  {
    if |s| < 2 then 0
    else (if LowerOrDigit(s[0]) && Upper(s[1]) then 1 else 0) + CamelBoundaries(s[1..])
  }

  /// `replace(/([a-z0-9])([A-Z])/g, '$1 $2')`. An upper-case letter never
  /// starts a match, so the global replacement puts one space into every
  /// boundary: the result has the same characters besides the added
  /// spaces, one more per boundary, and no boundary left.
  function SplitCamel(s: string): (r: string)
    ensures |s| > 0 ==> |r| > 0 && r[0] == s[0]
    ensures Without(r, IsBlank) == Without(s, IsBlank)
    ensures |r| == |s| + CamelBoundaries(s)
    ensures NoCamelBoundary(r)
  {
    if |s| < 2 then s
    else
      var rest := SplitCamel(s[1..]);
      if LowerOrDigit(s[0]) && Upper(s[1]) then
        var r := [s[0], ' '] + rest;
        assert r[2..] == rest && r == [s[0]] + ([' '] + rest);
        assert ([' '] + rest)[1..] == rest;
        r
      else
        var r := [s[0]] + rest;
        assert r[1..] == rest;
        r
  }

  // ---------------------------------------------------------------------
  // Words
  // ---------------------------------------------------------------------

  /// The characters `split(/[-_\s]+/)` splits at.
  predicate Separator(c: char) { c == '-' || c == '_' || JsSpace(c) }

  /// A non-empty run of characters none of which is a separator.
  predicate IsWord(w: string, sep: char -> bool)
  {
    |w| > 0 && forall i :: 0 <= i < |w| ==> !sep(w[i])
  }

  /// The longest prefix without a separator (as `sep` defines it).
  function WordAt(s: string, sep: char -> bool): (w: string)
    ensures |w| <= |s| && w == s[..|w|]
    ensures forall i :: 0 <= i < |w| ==> !sep(w[i])
    ensures |w| < |s| ==> sep(s[|w|])
    ensures |s| > 0 && !sep(s[0]) ==> IsWord(w, sep)
  {
    if |s| > 0 && !sep(s[0]) then
      var w := [s[0]] + WordAt(s[1..], sep);
      assert forall i :: 1 <= i < |w| ==> w[i] == s[1..][i - 1];
      w
    else []
  }

  /// `split(/[-_\s]+/).filter(Boolean)` with the separators given by
  /// `sep`: the maximal runs of other characters, in order.
  function Words(s: string, sep: char -> bool): (ws: seq<string>)
    ensures forall k :: 0 <= k < |ws| ==> IsWord(ws[k], sep)
    decreases |s|
  {
    if |s| == 0 then []
    else if sep(s[0]) then Words(s[1..], sep)
    else
      var w := WordAt(s, sep);
      [w] + Words(s[|w|..], sep)
  }

  /// The words one after the other.
  function Concat(ws: seq<string>): string
  {
    if |ws| == 0 then "" else ws[0] + Concat(ws[1..])
  }

  /// `p.charAt(0).toUpperCase() + p.slice(1).toLowerCase()`.
  function Capitalize(p: string): (r: string)
    ensures |r| == |p|
    ensures |p| > 0 ==> r[0] == AsciiUpperChar(p[0]) && forall i :: 1 <= i < |p| ==> r[i] == AsciiLowerChar(p[i])
  {
    if |p| == 0 then "" else [AsciiUpperChar(p[0])] + AsciiLower(p[1..])
  }

  function CapitalizeAll(ws: seq<string>): (r: seq<string>)
    ensures |r| == |ws| && forall k :: 0 <= k < |ws| ==> r[k] == Capitalize(ws[k])
  {
    seq(|ws|, k requires 0 <= k < |ws| => Capitalize(ws[k]))
  }

  /// `toTitleCase`: the words of a title are the capitalised words of the
  /// camel-split id.
  function ToTitleCase(id: string): (r: string)
    ensures Words(r, Separator) == CapitalizeAll(Words(SplitCamel(id), Separator))
  {
    var caps := CapitalizeAll(Words(SplitCamel(id), Separator));
    CapitalizedWords(caps, Words(SplitCamel(id), Separator));
    WordsOfJoin(caps, Separator);
    Join(caps, ' ')
  }

  /// Capitalised words are still words.
  lemma CapitalizedWords(caps: seq<string>, ws: seq<string>)
    requires caps == CapitalizeAll(ws)
    requires forall k :: 0 <= k < |ws| ==> IsWord(ws[k], Separator)
    ensures forall k :: 0 <= k < |caps| ==> IsWord(caps[k], Separator)
  {
    forall k | 0 <= k < |caps|
      ensures IsWord(caps[k], Separator)
    {
      CapitalizeKeepsLetters(ws[k]);
    }
  }

  /// `getAppTitle`.
  function GetAppTitle(viteAppId: Option<string>): (r: string)
    ensures viteAppId.Some? && |viteAppId.value| > 0 ==> r == ToTitleCase(viteAppId.value)
    ensures viteAppId.None? || viteAppId.value == "" ==> r == "Placeholder"
  {
    PlaceholderTitle();
    ToTitleCase(GetAppId(viteAppId))
  }

  // ---------------------------------------------------------------------
  // Properties
  // ---------------------------------------------------------------------

  lemma {:induction false} ConcatAppend(a: seq<string>, b: seq<string>)
    ensures Concat(a + b) == Concat(a) + Concat(b)
  {
    if |a| > 0 {
      ConcatAppend(a[1..], b);
      assert (a + b)[1..] == a[1..] + b;
    } else {
      assert a + b == b;
    }
  }

  /// Splitting into words loses only the separators.
  lemma {:induction false} WordsKeepLetters(s: string, sep: char -> bool)
    ensures Concat(Words(s, sep)) == Without(s, sep)
    decreases |s|
  {
    if |s| > 0 {
      if sep(s[0]) {
        WordsKeepLetters(s[1..], sep);
      } else {
        var w := WordAt(s, sep);
        var rest := s[|w|..];
        WordsKeepLetters(rest, sep);
        assert s == w + rest;
        WithoutAppend(w, rest, sep);
        WithoutNoneDropped(w, sep);
        assert Words(s, sep) == [w] + Words(rest, sep);
        assert Concat([w] + Words(rest, sep)) == w + Concat(Words(rest, sep)) by {
          assert ([w] + Words(rest, sep))[1..] == Words(rest, sep);
        }
      }
    }
  }

  /// A title's only separators are single spaces between words.
  lemma TitleSpacing(id: string)
    ensures var r := ToTitleCase(id);
            forall i :: 0 <= i < |r| && Separator(r[i]) ==>
              r[i] == ' ' && 0 < i < |r| - 1 && !Separator(r[i - 1]) && !Separator(r[i + 1])
  {
    var ws := Words(SplitCamel(id), Separator);
    var caps := CapitalizeAll(ws);
    CapitalizedWords(caps, ws);
    JoinSpacing(caps, Separator);
  }

  /// Capitalising keeps a word free of separators.
  lemma CapitalizeKeepsLetters(w: string)
    requires IsWord(w, Separator)
    ensures IsWord(Capitalize(w), Separator)
    ensures forall i :: 1 <= i < |w| ==> !Upper(Capitalize(w)[i])
  {
  }

  /// Joining non-empty separator-free words with single spaces.
  lemma {:induction false} JoinSpacing(parts: seq<string>, sep: char -> bool)
    requires sep(' ')
    requires forall k :: 0 <= k < |parts| ==> IsWord(parts[k], sep)
    ensures var r := Join(parts, ' ');
            (|r| > 0 ==> !sep(r[0]) && !sep(r[|r| - 1])) &&
            forall i :: 0 <= i < |r| && sep(r[i]) ==> r[i] == ' ' && 0 < i < |r| - 1 && !sep(r[i - 1]) && !sep(r[i + 1])
  {
    if |parts| > 1 {
      JoinSpacing(parts[1..], sep);
      var p := parts[0];
      var rest := Join(parts[1..], sep := ' ');
      var r := Join(parts, ' ');
      assert r == p + [' '] + rest;
      forall i | 0 <= i < |r| && sep(r[i])
        ensures r[i] == ' ' && 0 < i < |r| - 1 && !sep(r[i - 1]) && !sep(r[i + 1])
      {
        if i > |p| {
          assert r[i] == rest[i - |p| - 1];
          if i > |p| + 1 {
            assert r[i - 1] == rest[i - |p| - 2];
          }
          assert r[i + 1] == rest[i - |p|];
        } else {
          assert i == |p|;
          assert r[i + 1] == rest[0];
        }
      }
    }
  }

  /// Each title word begins with its first character upper-cased and has
  /// the rest lower-cased, so a title has no camel-case boundary.
  lemma {:induction false} JoinNoCamelBoundary(parts: seq<string>)
    requires forall k :: 0 <= k < |parts| ==> forall i :: 1 <= i < |parts[k]| ==> !Upper(parts[k][i])
    ensures NoCamelBoundary(Join(parts, ' '))
  {
    if |parts| > 1 {
      JoinNoCamelBoundary(parts[1..]);
      var p := parts[0];
      var rest := Join(parts[1..], ' ');
      var r := Join(parts, ' ');
      assert r == p + [' '] + rest;
      forall i | 0 <= i < |r| - 1
        ensures !(LowerOrDigit(r[i]) && Upper(r[i + 1]))
      {
        if i > |p| {
          assert r[i] == rest[i - |p| - 1] && r[i + 1] == rest[i - |p|];
        } else if i < |p| - 1 {
          assert r[i + 1] == p[i + 1];
        }
      }
    }
  }

  /// A text without camel-case boundaries is left alone.
  lemma {:induction false} SplitCamelWithoutBoundary(s: string)
    requires NoCamelBoundary(s)
    ensures SplitCamel(s) == s
  {
    if |s| >= 2 {
      SplitCamelWithoutBoundary(s[1..]);
    }
  }

  /// Splitting words joined by single spaces gives the words back.
  lemma {:induction false} WordsOfJoin(parts: seq<string>, sep: char -> bool)
    requires sep(' ')
    requires forall k :: 0 <= k < |parts| ==> IsWord(parts[k], sep)
    ensures Words(Join(parts, ' '), sep) == parts
  {
    if |parts| == 1 {
      var p := parts[0];
      WordAtWhole(p, sep);
      assert p[|p|..] == [];
    } else if |parts| > 1 {
      WordsOfJoin(parts[1..], sep);
      WordThenSpace(parts[0], Join(parts[1..], ' '), sep);
      assert parts == [parts[0]] + parts[1..];
    }
  }

  /// A word followed by a space contributes just itself.
  lemma WordThenSpace(p: string, rest: string, sep: char -> bool)
    requires sep(' ') && IsWord(p, sep)
    ensures Words(p + [' '] + rest, sep) == [p] + Words(rest, sep)
  {
    var r := p + [' '] + rest;
    WordAtPrefix(p, [' '] + rest, sep);
    assert r == p + ([' '] + rest);
    assert r[|p|..] == [' '] + rest;
    assert ([' '] + rest)[1..] == rest;
  }

  lemma {:induction false} WordAtWhole(p: string, sep: char -> bool)
    requires forall i :: 0 <= i < |p| ==> !sep(p[i])
    ensures WordAt(p, sep) == p
  {
    if |p| > 0 {
      WordAtWhole(p[1..], sep);
    }
  }

  lemma {:induction false} WordAtPrefix(p: string, tail: string, sep: char -> bool)
    requires forall i :: 0 <= i < |p| ==> !sep(p[i])
    requires |tail| > 0 && sep(tail[0])
    ensures WordAt(p + tail, sep) == p
  {
    if |p| > 0 {
      WordAtPrefix(p[1..], tail, sep);
      assert (p + tail)[1..] == p[1..] + tail;
    }
  }

  /// Capitalising twice is capitalising once.
  lemma CapitalizeIdempotent(w: string)
    ensures Capitalize(Capitalize(w)) == Capitalize(w)
  {
  }

  /// A title is its own title.
  lemma TitleIdempotent(id: string)
    ensures ToTitleCase(ToTitleCase(id)) == ToTitleCase(id)
  {
    var ws := Words(SplitCamel(id), Separator);
    var caps := CapitalizeAll(ws);
    var r := Join(caps, ' ');
    forall k | 0 <= k < |caps|
      ensures IsWord(caps[k], Separator)
      ensures forall i :: 1 <= i < |caps[k]| ==> !Upper(caps[k][i])
    {
      CapitalizeKeepsLetters(ws[k]);
    }
    JoinNoCamelBoundary(caps);
    SplitCamelWithoutBoundary(r);
    WordsOfJoin(caps, Separator);
    assert CapitalizeAll(caps) == caps by {
      forall k | 0 <= k < |caps|
        ensures Capitalize(caps[k]) == caps[k]
      {
        CapitalizeIdempotent(ws[k]);
      }
    }
  }

  /// The title of the placeholder id.
  lemma PlaceholderTitle()
    ensures ToTitleCase(Placeholder) == "Placeholder"
  {
    var s := Placeholder;
    PlaceholderIsLower();
    LowerWordTitle(s);
    PlaceholderCapitalized();
  }

  lemma PlaceholderCapitalized()
    ensures [AsciiUpperChar(Placeholder[0])] + Placeholder[1..] == "Placeholder"
  {
    assert Placeholder[0] == 'p' && AsciiUpperChar('p') == 'P';
    assert Placeholder[1..] == "laceholder";
  }

  lemma PlaceholderIsLower()
    ensures forall i :: 0 <= i < |Placeholder| ==> 'a' <= Placeholder[i] <= 'z'
  {
    assert Placeholder == ['p', 'l', 'a', 'c', 'e', 'h', 'o', 'l', 'd', 'e', 'r'];
  }

  /// A word of lower-case ASCII letters is its own title with the first
  /// letter capitalised.
  lemma LowerWordTitle(w: string)
    requires |w| > 0 && forall i :: 0 <= i < |w| ==> 'a' <= w[i] <= 'z'
    ensures ToTitleCase(w) == [AsciiUpperChar(w[0])] + w[1..]
  {
    assert NoCamelBoundary(w);
    SplitCamelWithoutBoundary(w);
    forall i | 0 <= i < |w|
      ensures !Separator(w[i])
    {
      LowerIsNoSeparator(w[i]);
    }
    WordsOfJoin([w], Separator);
    assert AsciiLower(w[1..]) == w[1..];
    assert CapitalizeAll([w]) == [Capitalize(w)];
  }

  lemma LowerIsNoSeparator(c: char)
    requires 'a' <= c <= 'z'
    ensures !Separator(c)
  {
  }
}
