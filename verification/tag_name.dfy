// The tag-name normaliser of the mobile tag manager
// (mobileapp/src/components/TagManager.tsx): trim, collapse every run of
// white space into one space, then strip the leading '#' characters; and
// the guards that keep an empty normalised name from reaching the server.

module TagName {
  import opened Common
  import opened Text

  /// `replace(/\s+/g, ' ')` with `\s` given as `ws`: each maximal run of
  /// white space becomes one space; every other character stays.
  function Collapse(s: string, ws: char -> bool): (r: string)
    requires ws(' ')
    ensures |r| == 0 <==> |s| == 0
    ensures |s| > 0 && !ws(s[0]) ==> r[0] == s[0]
    ensures |s| > 0 && !ws(s[|s| - 1]) ==> r[|r| - 1] == s[|s| - 1]
    ensures SingleSpaced(r, ws)
    decreases |s|
  {
    if |s| == 0 then []
    else if ws(s[0]) then
      var rest := TrimStart(s, ws);
      assert |rest| > 0 ==> rest[0] == s[|s| - |rest|];
      assert |rest| > 0 ==> rest[|rest| - 1] == s[|s| - 1];
      [' '] + Collapse(rest, ws)
    else
      [s[0]] + Collapse(s[1..], ws)
  }

  /// `replace(/^#+/, '')`.
  function StripHashes(s: string): (r: string)
    ensures |r| <= |s| && r == s[|s| - |r|..]
    ensures forall i :: 0 <= i < |s| - |r| ==> s[i] == '#'
    ensures |r| > 0 ==> r[0] != '#'
  {
    if |s| > 0 && s[0] == '#' then
      var r := StripHashes(s[1..]);
      assert forall i :: 1 <= i < |s| - |r| ==> s[i] == s[1..][i - 1];
      r
    else s
  }

  /// Every white-space character of `r` is a space, and no two of them
  /// are neighbours.
  predicate SingleSpaced(r: string, ws: char -> bool)
  {
    (forall i :: 0 <= i < |r| && ws(r[i]) ==> r[i] == ' ') &&
    (forall i :: 0 <= i < |r| - 1 ==> !(ws(r[i]) && ws(r[i + 1])))
  }

  /// The characters of `r` that are not white space are those of `name`,
  /// in order, less some of the leading '#'s.
  predicate NonSpaceLessHashes(name: string, r: string, ws: char -> bool)
  {
    var n := Without(name, ws);
    exists k :: 0 <= k <= |n| && Without(r, ws) == n[k..] && forall i :: 0 <= i < k ==> n[i] == '#'
  }

  /// `normalizeTagName`: the name never starts with '#', its only white
  /// space is single spaces between other characters or at its start, and
  /// its other characters are the input's, in order and in their case,
  /// less some leading '#'s.
  function NormalizeTagName(name: string): (r: string)
    ensures |r| > 0 ==> r[0] != '#' && !JsSpace(r[|r| - 1])
    ensures SingleSpaced(r, JsSpace)
    ensures NonSpaceLessHashes(name, r, JsSpace)
  {
    NormalizedShape(name, JsSpace);
    StripHashes(Collapse(Trim(name, JsSpace), JsSpace))
  }

  /// What the create and rename buttons do.
  datatype Action =
    | Nothing
    | ShowError(message: string)
    | CreateTagCall(name: string)
    | RenameTagCall(tagId: string, newName: string)

  const EmptyNameMessage := "Tag name cannot be empty"

  /// `handleCreateTag`.
  function HandleCreateTag(newTagName: string): (a: Action)
    ensures a.CreateTagCall? || a == ShowError(EmptyNameMessage)
    ensures a.CreateTagCall? <==> exists i :: 0 <= i < |Trim(newTagName, JsSpace)| && Trim(newTagName, JsSpace)[i] != '#'
    ensures a.CreateTagCall? ==> a.name == NormalizeTagName(newTagName) && |a.name| > 0
  {
    var normalized := NormalizeTagName(newTagName);
    EmptyExactlyWhenOnlyHashes(newTagName);
    if |normalized| == 0 then ShowError(EmptyNameMessage) else CreateTagCall(normalized)
  }

  /// `handleRenameTag`, with the tag being edited if there is one.
  function HandleRenameTag(editingTagId: Option<string>, editTagName: string): (a: Action)
    ensures editingTagId.None? ==> a == Nothing
    ensures a.RenameTagCall? ==> a.tagId == editingTagId.value &&
                                 a.newName == NormalizeTagName(editTagName) && |a.newName| > 0
    ensures editingTagId.Some? ==> (a.RenameTagCall? <==> |NormalizeTagName(editTagName)| > 0)
  {
    if editingTagId.None? then Nothing
    else
      var normalized := NormalizeTagName(editTagName);
      if |normalized| == 0 then ShowError(EmptyNameMessage)
      else RenameTagCall(editingTagId.value, normalized)
  }

  // ---------------------------------------------------------------------
  // Properties
  // ---------------------------------------------------------------------

  /// Dropping trailing white space keeps the other characters.
  lemma {:induction false} TrimEndKeepsNonSpace(s: string, ws: char -> bool)
    ensures Without(TrimEnd(s, ws), ws) == Without(s, ws)
  {
    if |s| > 0 && ws(s[|s| - 1]) {
      var front := s[..|s| - 1];
      TrimEndKeepsNonSpace(front, ws);
      assert s == front + [s[|s| - 1]];
      WithoutAppend(front, [s[|s| - 1]], ws);
      assert Without([s[|s| - 1]], ws) == [];
    }
  }

  /// Trimming removes only white space.
  lemma TrimKeepsNonSpace(s: string, ws: char -> bool)
    ensures Without(Trim(s, ws), ws) == Without(s, ws)
  {
    WithoutTrimStart(s, ws);
    TrimEndKeepsNonSpace(TrimStart(s, ws), ws);
  }

  /// Collapsing keeps every character that is not white space, in order.
  lemma {:induction false} CollapseKeepsNonSpace(s: string, ws: char -> bool)
    requires ws(' ')
    ensures Without(Collapse(s, ws), ws) == Without(s, ws)
    decreases |s|
  {
    if |s| > 0 {
      var r := Collapse(s, ws);
      if ws(s[0]) {
        var rest := TrimStart(s, ws);
        CollapseKeepsNonSpace(rest, ws);
        WithoutTrimStart(s, ws);
        assert r[1..] == Collapse(rest, ws);
      } else {
        CollapseKeepsNonSpace(s[1..], ws);
        assert r[1..] == Collapse(s[1..], ws);
      }
    }
  }

  /// Stripping the leading '#'s drops only those from the non-space
  /// characters.
  lemma {:induction false} StripKeepsNonSpace(c: string, ws: char -> bool)
    requires !ws('#')
    ensures var n := Without(c, ws);
            var d := |c| - |StripHashes(c)|;
            d <= |n| && Without(StripHashes(c), ws) == n[d..] && forall i :: 0 <= i < d ==> n[i] == '#'
  {
    var r := StripHashes(c);
    var d := |c| - |r|;
    var hashes := c[..d];
    assert c == hashes + r;
    assert forall i :: 0 <= i < |hashes| ==> hashes[i] == '#';
    WithoutAppend(hashes, r, ws);
    WithoutNoneDropped(hashes, ws);
    var n := Without(c, ws);
    assert n == hashes + Without(r, ws);
    assert n[d..] == Without(r, ws);
  }

  /// The non-space characters survive the three steps, less the stripped
  /// '#'s.
  lemma {:induction false} NormalizedKeepsNonSpace(name: string, ws: char -> bool)
    requires ws(' ') && !ws('#')
    ensures NonSpaceLessHashes(name, StripHashes(Collapse(Trim(name, ws), ws)), ws)
  {
    var t := Trim(name, ws);
    var c := Collapse(t, ws);
    var n := Without(name, ws);
    assert Without(c, ws) == n by {
      TrimKeepsNonSpace(name, ws);
      CollapseKeepsNonSpace(t, ws);
    }
    var d := |c| - |StripHashes(c)|;
    assert d <= |n| && Without(StripHashes(c), ws) == n[d..] && forall i :: 0 <= i < d ==> n[i] == '#' by {
      StripKeepsNonSpace(c, ws);
    }
  }

  /// The three steps with any notion of white space that holds for ' '
  /// and not for '#'.
  lemma {:induction false} NormalizedShape(name: string, ws: char -> bool)
    requires ws(' ') && !ws('#')
    ensures var r := StripHashes(Collapse(Trim(name, ws), ws));
            (|r| > 0 ==> r[0] != '#' && !ws(r[|r| - 1])) &&
            SingleSpaced(r, ws) && NonSpaceLessHashes(name, r, ws)
  {
    var t := Trim(name, ws);
    var c := Collapse(t, ws);
    var r := StripHashes(c);
    assert NonSpaceLessHashes(name, r, ws) by {
      NormalizedKeepsNonSpace(name, ws);
    }
    assert SingleSpaced(r, ws) && (|r| > 0 ==> r[|r| - 1] == c[|c| - 1]) by {
      assert SingleSpaced(c, ws);
      SuffixKeepsSpacing(c, r, ws);
    }
    assert |r| > 0 ==> !ws(r[|r| - 1]) by {
      LastIsNotSpace(t, c, r, ws);
    }
  }

  /// The last character survives collapsing and stripping.
  lemma LastIsNotSpace(t: string, c: string, r: string, ws: char -> bool)
    requires |t| > 0 ==> !ws(t[|t| - 1])
    requires |c| == 0 <==> |t| == 0
    requires |t| > 0 && !ws(t[|t| - 1]) ==> c[|c| - 1] == t[|t| - 1]
    requires |r| <= |c| && (|r| > 0 ==> r[|r| - 1] == c[|c| - 1])
    ensures |r| > 0 ==> !ws(r[|r| - 1])
  {
  }

  /// A suffix of a collapsed text is spaced like it.
  lemma {:induction false} SuffixKeepsSpacing(c: string, r: string, ws: char -> bool)
    requires |r| <= |c| && r == c[|c| - |r|..]
    requires SingleSpaced(c, ws)
    ensures |r| > 0 ==> r[|r| - 1] == c[|c| - 1]
    ensures SingleSpaced(r, ws)
  {
    var d := |c| - |r|;
    assert forall i :: 0 <= i < |r| ==> r[i] == c[d + i];
  }

  /// Collapsing a text without white space changes nothing.
  lemma {:induction false} CollapseWithoutSpace(s: string, ws: char -> bool)
    requires ws(' ') && forall i :: 0 <= i < |s| ==> !ws(s[i])
    ensures Collapse(s, ws) == s
  {
    if |s| > 0 {
      CollapseWithoutSpace(s[1..], ws);
    }
  }

  /// White space anywhere leaves a space in the collapsed text.
  lemma {:induction false} CollapseKeepsSpace(s: string, ws: char -> bool, j: nat)
    requires ws(' ') && j < |s| && ws(s[j])
    ensures ' ' in Collapse(s, ws)
  {
    if !ws(s[0]) {
      CollapseKeepsSpace(s[1..], ws, j - 1);
      assert Collapse(s, ws) == [s[0]] + Collapse(s[1..], ws);
    }
  }

  /// Every character of `w` is white space.
  predicate AllSpace(w: string, ws: char -> bool)
  {
    forall i :: 0 <= i < |w| ==> ws(w[i])
  }

  /// `s` is empty or ends in a character that is not white space.
  predicate EndsInWord(s: string, ws: char -> bool)
  {
    |s| == 0 || !ws(s[|s| - 1])
  }

  /// `s` is empty or starts with a character that is not white space.
  predicate StartsWithWord(s: string, ws: char -> bool)
  {
    |s| == 0 || !ws(s[0])
  }

  /// Trimming the front of a run followed by a word leaves the word.
  lemma {:induction false} TrimStartOfRun(w: string, b: string, ws: char -> bool)
    requires AllSpace(w, ws) && StartsWithWord(b, ws)
    ensures TrimStart(w + b, ws) == b
  {
    if |w| > 0 {
      assert (w + b)[1..] == w[1..] + b;
      TrimStartOfRun(w[1..], b, ws);
    } else {
      assert w + b == b;
    }
  }

  /// Trimming the front of a text that ends in a word stops inside it.
  lemma {:induction false} TrimStartBeforeWordEnd(a: string, b: string, ws: char -> bool)
    requires |a| > 0 && EndsInWord(a, ws)
    ensures TrimStart(a + b, ws) == TrimStart(a, ws) + b
  {
    if ws(a[0]) {
      assert (a + b)[1..] == a[1..] + b;
      TrimStartBeforeWordEnd(a[1..], b, ws);
    }
  }

  /// Trimming the end of a word followed by a run leaves the word.
  lemma {:induction false} TrimEndOfRun(x: string, w: string, ws: char -> bool)
    requires EndsInWord(x, ws) && AllSpace(w, ws)
    ensures TrimEnd(x + w, ws) == x
    decreases |w|
  {
    if |w| > 0 {
      var front := w[..|w| - 1];
      assert (x + w)[..|x + w| - 1] == x + front;
      TrimEndOfRun(x, front, ws);
    } else {
      assert x + w == x;
    }
  }

  /// A text that ends in a word collapses independently of what follows.
  lemma {:induction false} CollapseConcat(a: string, b: string, ws: char -> bool)
    requires ws(' ') && EndsInWord(a, ws)
    ensures Collapse(a + b, ws) == Collapse(a, ws) + Collapse(b, ws)
    decreases |a|
  {
    if |a| == 0 {
      assert a + b == b;
    } else if ws(a[0]) {
      var rest := TrimStart(a, ws);
      TrimStartBeforeWordEnd(a, b, ws);
      assert (a + b)[0] == a[0];
      CollapseSpaceHead(a + b, ws);
      CollapseSpaceHead(a, ws);
      assert EndsInWord(rest, ws) by {
        assert |rest| > 0 && rest[|rest| - 1] == a[|a| - 1];
      }
      CollapseConcat(rest, b, ws);
      SharedHead([' '], Collapse(a + b, ws), Collapse(a, ws), Collapse(rest, ws), Collapse(b, ws));
    } else {
      assert (a + b)[0] == a[0] && (a + b)[1..] == a[1..] + b;
      CollapseWordHead(a + b, ws);
      CollapseWordHead(a, ws);
      CollapseConcat(a[1..], b, ws);
      SharedHead([a[0]], Collapse(a + b, ws), Collapse(a, ws), Collapse(a[1..], ws), Collapse(b, ws));
    }
  }

  /// Two texts that start alike and go on as `rest` and `rest + tail`.
  lemma SharedHead(h: string, whole: string, head: string, rest: string, tail: string)
    requires whole == h + (rest + tail) && head == h + rest
    ensures whole == head + tail
  {
  }

  /// A text that starts with white space collapses to one space and the
  /// collapsed remainder after the run.
  lemma CollapseSpaceHead(s: string, ws: char -> bool)
    requires ws(' ') && |s| > 0 && ws(s[0])
    ensures Collapse(s, ws) == [' '] + Collapse(TrimStart(s, ws), ws)
  {
  }

  /// A text that starts with a character other than white space keeps it.
  lemma CollapseWordHead(s: string, ws: char -> bool)
    requires ws(' ') && |s| > 0 && !ws(s[0])
    ensures Collapse(s, ws) == [s[0]] + Collapse(s[1..], ws)
  {
  }

  /// A non-empty run of white space in front of a word collapses to one
  /// space.
  lemma CollapseRun(w: string, b: string, ws: char -> bool)
    requires ws(' ') && |w| > 0 && AllSpace(w, ws) && StartsWithWord(b, ws)
    ensures Collapse(w + b, ws) == [' '] + Collapse(b, ws)
  {
    assert (w + b)[0] == w[0];
    TrimStartOfRun(w, b, ws);
    CollapseSpaceHead(w + b, ws);
  }

  /// Each maximal run of white space becomes exactly one space, in its
  /// own place: what lies before and after it collapses on its own.
  lemma CollapseSplitsAtRun(a: string, w: string, b: string, ws: char -> bool)
    requires ws(' ') && EndsInWord(a, ws) && StartsWithWord(b, ws)
    requires |w| > 0 && AllSpace(w, ws)
    ensures Collapse(a + w + b, ws) == Collapse(a, ws) + [' '] + Collapse(b, ws)
  {
    var x := w + b;
    assert a + w + b == a + x;
    CollapseConcat(a, x, ws);
    CollapseRun(w, b, ws);
    SpaceBetween(Collapse(a + w + b, ws), Collapse(a, ws), Collapse(x, ws), Collapse(b, ws));
  }

  /// `head`, then `mid` which is a space and `tail`.
  lemma SpaceBetween(whole: string, head: string, mid: string, tail: string)
    requires whole == head + mid && mid == [' '] + tail
    ensures whole == head + [' '] + tail
  {
  }

  /// A name made of two words around a run of white space, with white
  /// space on either side, normalises to the two collapsed words joined
  /// by one space.
  lemma NormalizeSplitsAtRun(lead: string, a: string, w: string, b: string, trail: string)
    requires AllSpace(lead, JsSpace) && AllSpace(trail, JsSpace)
    requires |a| > 0 && !JsSpace(a[0]) && a[0] != '#' && EndsInWord(a, JsSpace)
    requires |w| > 0 && AllSpace(w, JsSpace)
    requires |b| > 0 && StartsWithWord(b, JsSpace) && EndsInWord(b, JsSpace)
    ensures NormalizeTagName(lead + a + w + b + trail) ==
            Collapse(a, JsSpace) + [' '] + Collapse(b, JsSpace)
  {
    var x := a + w + b;
    var name := lead + a + w + b + trail;
    assert Trim(name, JsSpace) == x by {
      Regroup(lead, a, w, b, trail);
      assert x[0] == a[0] && x[|x| - 1] == b[|b| - 1];
      TrimAroundText(lead, x, trail, JsSpace);
    }
    var c := Collapse(x, JsSpace);
    assert c == Collapse(a, JsSpace) + [' '] + Collapse(b, JsSpace) by {
      CollapseSplitsAtRun(a, w, b, JsSpace);
    }
    assert |c| > 0 && c[0] != '#' by {
      assert x[0] == a[0];
    }
    StripWithoutHash(c);
  }

  /// Two words without white space, with any white space before, between
  /// and after them, normalise to the words joined by one space.
  lemma NormalizeTwoWords(lead: string, u: string, w: string, v: string, trail: string)
    requires AllSpace(lead, JsSpace) && AllSpace(trail, JsSpace)
    requires |u| > 0 && u[0] != '#' && NoSpace(u, JsSpace)
    requires |w| > 0 && AllSpace(w, JsSpace)
    requires |v| > 0 && NoSpace(v, JsSpace)
    ensures NormalizeTagName(lead + u + w + v + trail) == u + [' '] + v
  {
    assert JsSpace(' ');
    WordWithoutSpace(u, JsSpace);
    WordWithoutSpace(v, JsSpace);
    NormalizeSplitsAtRun(lead, u, w, v, trail);
  }

  /// A non-empty text without white space starts and ends in a word and
  /// collapses to itself.
  lemma WordWithoutSpace(s: string, ws: char -> bool)
    requires ws(' ') && |s| > 0 && NoSpace(s, ws)
    ensures !ws(s[0]) && StartsWithWord(s, ws) && EndsInWord(s, ws)
    ensures Collapse(s, ws) == s
  {
    CollapseWithoutSpace(s, ws);
  }

  /// No character of `s` is white space.
  predicate NoSpace(s: string, ws: char -> bool)
  {
    forall i :: 0 <= i < |s| ==> !ws(s[i])
  }

  /// Five pieces, with the middle three taken together.
  lemma Regroup(lead: string, a: string, w: string, b: string, trail: string)
    ensures lead + a + w + b + trail == lead + (a + w + b) + trail
  {
  }

  /// A text that does not start with '#' loses nothing to stripping.
  lemma StripWithoutHash(c: string)
    requires |c| > 0 && c[0] != '#'
    ensures StripHashes(c) == c
  {
  }

  /// Trimming a text that starts and ends in a word, with white space
  /// around it, leaves that text.
  lemma TrimAroundText(lead: string, x: string, trail: string, ws: char -> bool)
    requires AllSpace(lead, ws) && AllSpace(trail, ws)
    requires |x| > 0 && !ws(x[0]) && !ws(x[|x| - 1])
    ensures Trim(lead + x + trail, ws) == x
  {
    assert lead + x + trail == lead + (x + trail);
    TrimStartOfRun(lead, x + trail, ws);
    TrimEndOfRun(x, trail, ws);
  }

  /// The normalised name is empty exactly when the trimmed input is
  /// nothing but '#'; '#'s with white space between them leave a space.
  lemma {:induction false} EmptyExactlyWhenOnlyHashes(name: string)
    ensures |NormalizeTagName(name)| == 0 <==>
            forall i :: 0 <= i < |Trim(name, JsSpace)| ==> Trim(name, JsSpace)[i] == '#'
  {
    var t := Trim(name, JsSpace);
    var c := Collapse(t, JsSpace);
    if forall i :: 0 <= i < |t| ==> t[i] == '#' {
      CollapseWithoutSpace(t, JsSpace);
    }
    if |NormalizeTagName(name)| == 0 {
      assert forall i :: 0 <= i < |c| ==> c[i] == '#';
      forall j | 0 <= j < |t|
        ensures !JsSpace(t[j])
      {
        if JsSpace(t[j]) {
          CollapseKeepsSpace(t, JsSpace, j);
        }
      }
      CollapseWithoutSpace(t, JsSpace);
    }
  }

  /// Stripping comes after trimming, so a space behind the '#' stays.
  lemma HashThenSpaceKeepsSpace()
    ensures NormalizeTagName("# foo") == " foo"
  {
    HashThenSpaceTrimmed();
    HashThenSpaceCollapsed();
    assert StripHashes("# foo") == " foo" by {
      assert "# foo"[1..] == " foo";
    }
  }

  lemma HashThenSpaceTrimmed()
    ensures Trim("# foo", JsSpace) == "# foo"
  {
    var s := "# foo";
    assert !JsSpace(s[0]) && !JsSpace(s[4]);
    assert TrimStart(s, JsSpace) == s;
    assert TrimEnd(s, JsSpace) == s;
  }

  lemma HashThenSpaceCollapsed()
    ensures Collapse("# foo", JsSpace) == "# foo"
  {
    var s := "# foo";
    assert !JsSpace('#') && JsSpace(' ');
    var rest := TrimStart(s[1..], JsSpace);
    assert rest == "foo" by {
      assert s[1..][0] == ' ' && s[1..][1..] == "foo";
      assert "foo"[0] == 'f' && !JsSpace('f');
      assert TrimStart("foo", JsSpace) == "foo";
    }
    CollapseWithoutSpace("foo", JsSpace);
    assert Collapse(s[1..], JsSpace) == " foo";
  }
}
