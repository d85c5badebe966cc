// String helpers shared by the server and client models: trimming under
// Rust's and JavaScript's notions of white space, ASCII case mapping,
// and splitting/joining on a separator character.

module Text {

  /// Rust `char::is_whitespace`: the Unicode White_Space property.
  predicate RustSpace(c: char)
  {
    (0x09 <= c as int <= 0x0D) || c == ' ' || c as int == 0x85 || c as int == 0xA0 ||
    c as int == 0x1680 || (0x2000 <= c as int <= 0x200A) || c as int == 0x2028 ||
    c as int == 0x2029 || c as int == 0x202F || c as int == 0x205F || c as int == 0x3000
  }

  /// JavaScript `\s` and `String.prototype.trim`: WhiteSpace and
  /// LineTerminator of ECMA-262. Unlike Rust it includes U+FEFF and
  /// excludes U+0085.
  predicate JsSpace(c: char)
  {
    (0x09 <= c as int <= 0x0D) || c == ' ' || c as int == 0xA0 || c as int == 0xFEFF ||
    c as int == 0x1680 || (0x2000 <= c as int <= 0x200A) || c as int == 0x2028 ||
    c as int == 0x2029 || c as int == 0x202F || c as int == 0x205F || c as int == 0x3000
  }

  /// Drops the leading characters satisfying `space`.
  function TrimStart(s: string, space: char -> bool): (r: string)
    ensures |r| <= |s| && r == s[|s| - |r|..]
    ensures |r| > 0 ==> !space(r[0])
    ensures forall i :: 0 <= i < |s| - |r| ==> space(s[i])
  {
    if |s| > 0 && space(s[0]) then
      var r := TrimStart(s[1..], space);
      assert s[1..][|s| - 1 - |r|..] == s[|s| - |r|..];
      assert forall i :: 1 <= i < |s| - |r| ==> s[i] == s[1..][i - 1];
      r
    else s
  }

  /// Drops the trailing characters satisfying `space`.
  function TrimEnd(s: string, space: char -> bool): (r: string)
    ensures |r| <= |s| && r == s[..|r|]
    ensures |r| > 0 ==> !space(r[|r| - 1])
    ensures forall i :: |r| <= i < |s| ==> space(s[i])
  {
    if |s| > 0 && space(s[|s| - 1]) then
      var r := TrimEnd(s[..|s| - 1], space);
      assert forall i :: |r| <= i < |s| - 1 ==> s[i] == s[..|s| - 1][i];
      r
    else s
  }

  /// Removes white space (as `space` defines it) from both ends.
  function Trim(s: string, space: char -> bool): (r: string)
    ensures |r| <= |s|
    ensures |r| > 0 ==> !space(r[0]) && !space(r[|r| - 1])
    ensures r == [] <==> forall i :: 0 <= i < |s| ==> space(s[i])
    ensures forall c :: c in r ==> c in s
  {
    var t := TrimStart(s, space);
    var r := TrimEnd(t, space);
    TrimIsSlice(s, t, r, space);
    r
  }

  /// What is left after trimming both ends is a slice of the input with
  /// white space only around it.
  lemma TrimIsSlice(s: string, t: string, r: string, space: char -> bool)
    requires |t| <= |s| && t == s[|s| - |t|..]
    requires forall i :: 0 <= i < |s| - |t| ==> space(s[i])
    requires |r| <= |t| && r == t[..|r|]
    requires forall i :: |r| <= i < |t| ==> space(t[i])
    requires |r| > 0 ==> !space(r[0])
    ensures r == s[|s| - |t|..|s| - |t| + |r|]
    ensures r == [] <==> forall i :: 0 <= i < |s| ==> space(s[i])
    ensures forall c :: c in r ==> c in s
  {
    var k := |s| - |t|;
    assert r == s[k..k + |r|];
    if r == [] {
      forall i | 0 <= i < |s|
        ensures space(s[i])
      {
        if i >= k {
          assert s[i] == t[i - k];
        }
      }
    } else {
      assert s[k] == r[0];
    }
    forall c | c in r
      ensures c in s
    {
      var j :| 0 <= j < |r| && r[j] == c;
      assert s[k + j] == c;
    }
  }

  /// Trimming twice trims nothing more.
  lemma {:induction false} TrimIdempotent(s: string, space: char -> bool)
    ensures Trim(Trim(s, space), space) == Trim(s, space)
  {
    var r := Trim(s, space);
    if |r| > 0 {
      assert TrimStart(r, space) == r;
      assert TrimEnd(r, space) == r;
    }
  }

  function AsciiLowerChar(c: char): (d: char)
    ensures 'A' <= c <= 'Z' ==> d as int == c as int + 32
    ensures !('A' <= c <= 'Z') ==> d == c
  {
    if 'A' <= c <= 'Z' then (c as int + 32) as char else c
  }

  function AsciiUpperChar(c: char): (d: char)
    ensures 'a' <= c <= 'z' ==> d as int == c as int - 32
    ensures !('a' <= c <= 'z') ==> d == c
  {
    if 'a' <= c <= 'z' then (c as int - 32) as char else c
  }

  /// Lower-cases the ASCII letters and leaves every other character alone.
  function AsciiLower(s: string): (r: string)
    ensures |r| == |s|
    ensures forall i :: 0 <= i < |s| ==> r[i] == AsciiLowerChar(s[i])
  {
    seq(|s|, i requires 0 <= i < |s| => AsciiLowerChar(s[i]))
  }

  /// Upper-cases the ASCII letters and leaves every other character alone.
  function AsciiUpper(s: string): (r: string)
    ensures |r| == |s|
    ensures forall i :: 0 <= i < |s| ==> r[i] == AsciiUpperChar(s[i])
  {
    seq(|s|, i requires 0 <= i < |s| => AsciiUpperChar(s[i]))
  }

  /// The characters of `s` that do not satisfy `drop`, in order.
  function Without(s: string, drop: char -> bool): (r: string)
    ensures |r| <= |s|
  {
    if |s| == 0 then []
    else (if drop(s[0]) then [] else [s[0]]) + Without(s[1..], drop)
  }

  lemma {:induction false} WithoutAppend(a: string, b: string, drop: char -> bool)
    ensures Without(a + b, drop) == Without(a, drop) + Without(b, drop)
  {
    if |a| > 0 {
      WithoutAppend(a[1..], b, drop);
      assert (a + b)[1..] == a[1..] + b;
    } else {
      assert a + b == b;
    }
  }

  /// Dropping from a text whose every character is dropped leaves nothing.
  lemma {:induction false} WithoutAllDropped(s: string, drop: char -> bool)
    requires forall i :: 0 <= i < |s| ==> drop(s[i])
    ensures Without(s, drop) == []
  {
    if |s| > 0 {
      WithoutAllDropped(s[1..], drop);
    }
  }

  /// Dropping from a text none of whose characters is dropped changes
  /// nothing.
  lemma {:induction false} WithoutNoneDropped(s: string, drop: char -> bool)
    requires forall i :: 0 <= i < |s| ==> !drop(s[i])
    ensures Without(s, drop) == s
  {
    if |s| > 0 {
      WithoutNoneDropped(s[1..], drop);
    }
  }

  /// Trimming leading characters that are dropped anyway changes nothing
  /// of what is kept.
  lemma {:induction false} WithoutTrimStart(s: string, drop: char -> bool)
    ensures Without(TrimStart(s, drop), drop) == Without(s, drop)
  {
    if |s| > 0 && drop(s[0]) {
      WithoutTrimStart(s[1..], drop);
    }
  }

  /// `part` occurs in `s` starting at `i`.
  predicate OccursAt(s: string, part: string, i: int)
  {
    0 <= i <= |s| - |part| && s[i..i + |part|] == part
  }

  /// Substring search (`str::contains`, `String.prototype.includes`).
  predicate Contains(s: string, part: string)
  {
    exists i :: 0 <= i <= |s| - |part| && OccursAt(s, part, i)
  }

  /// Joins the parts, putting `sep` between neighbours (`slice::join`).
  function Join(parts: seq<string>, sep: char): (r: string)
    ensures |parts| == 1 ==> r == parts[0]
  {
    if |parts| == 0 then ""
    else if |parts| == 1 then parts[0]
    else parts[0] + [sep] + Join(parts[1..], sep)
  }

  /// Splits at every occurrence of `sep` (`str::split` with a char): the
  /// result always has one more part than `s` has separators.
  function Split(s: string, sep: char): (parts: seq<string>)
    ensures |parts| >= 1
    ensures forall p :: p in parts ==> sep !in p
    decreases |s|
  {
    SplitFrom(s, sep, 0)
  }

  function SplitFrom(s: string, sep: char, i: nat): (parts: seq<string>)
    requires i <= |s|
    requires sep !in s[..i]
    ensures |parts| >= 1
    ensures forall p :: p in parts ==> sep !in p
    ensures sep !in s ==> parts == [s]
    decreases |s| - i
  {
    if i == |s| then [s]
    else if s[i] == sep then
      assert sep !in s[..i];
      [s[..i]] + SplitFrom(s[i + 1..], sep, 0)
    else
      assert s[..i + 1] == s[..i] + [s[i]];
      SplitFrom(s, sep, i + 1)
  }

  /// Splitting a join of separator-free parts gives the parts back.
  lemma {:induction false} SplitJoin(parts: seq<string>, sep: char)
    requires |parts| >= 1
    requires forall p :: p in parts ==> sep !in p
    ensures Split(Join(parts, sep), sep) == parts
    decreases |parts|
  {
    if |parts| == 1 {
      assert Join(parts, sep) == parts[0];
    } else {
      var head := parts[0];
      var rest := Join(parts[1..], sep);
      var s := head + [sep] + rest;
      assert Join(parts, sep) == s;
      SplitSkipsPrefix(head, rest, sep, 0);
      SplitJoin(parts[1..], sep);
      assert [head] + parts[1..] == parts;
    }
  }

  lemma {:induction false} SplitSkipsPrefix(head: string, rest: string, sep: char, i: nat)
    requires sep !in head && i <= |head|
    ensures SplitFrom(head + [sep] + rest, sep, i) == [head] + Split(rest, sep)
    decreases |head| - i
  {
    var s := head + [sep] + rest;
    assert s[..i] == head[..i];
    if i == |head| {
      assert s[i] == sep;
      assert s[..i] == head;
      assert s[i + 1..] == rest;
    } else {
      assert s[i] == head[i];
      assert s[i] != sep;
      SplitSkipsPrefix(head, rest, sep, i + 1);
    }
  }
}
