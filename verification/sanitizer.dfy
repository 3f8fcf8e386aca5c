/**
 * The login screen's input sanitiser (`sanitize_input`): three passes applied
 * in this order to every raw text field:
 *   1. strip leading and trailing whitespace,
 *   2. delete every character of the class [\x00-\x1f\x7f-\x9f],
 *   3. replace every maximal run of whitespace with one space.
 * Because the strip comes first, a control character in front of a space
 * shields that space from it: the result is not always trimmed.
 */
module Sanitizer {

  /** Whitespace as Python's `str.strip()` and the `\s` class of `re` see it
      (characters with Unicode category Zs or bidirectional class WS, B or S). */
  predicate IsSpace(c: char)
  {
    var n := c as int;
    (0x09 <= n <= 0x0D) || (0x1C <= n <= 0x20) || n == 0x85 || n == 0xA0 || n == 0x1680
    || (0x2000 <= n <= 0x200A) || n == 0x2028 || n == 0x2029 || n == 0x202F || n == 0x205F
    || n == 0x3000
  }

  /** The character class `[\x00-\x1f\x7f-\x9f]` removed by the second pass. */
  predicate IsControl(c: char)
  {
    var n := c as int;
    n <= 0x1F || (0x7F <= n <= 0x9F)
  }

  predicate NoControl(s: string)
  {
    forall i :: 0 <= i < |s| ==> !IsControl(s[i])
  }

  /** No two neighbouring characters are both whitespace. */
  predicate NoRepeatedSpace(s: string)
  {
    forall i :: 0 < i < |s| ==> !(IsSpace(s[i - 1]) && IsSpace(s[i]))
  }

  predicate AllSpace(s: string)
  {
    forall i :: 0 <= i < |s| ==> IsSpace(s[i])
  }

  /** The visible text of `s`: its non-whitespace characters, in order. */
  function NonSpaces(s: string): string
  {
    if s == [] then [] else (if IsSpace(s[0]) then [] else [s[0]]) + NonSpaces(s[1..])
  }

  /** `str.lstrip()`: the longest suffix of `s` that does not start with whitespace. */
  function TrimStart(s: string): (r: string)
    ensures |r| <= |s| && r == s[|s| - |r|..]
    ensures r == [] || !IsSpace(r[0])
    ensures forall i :: 0 <= i < |s| - |r| ==> IsSpace(s[i])
  {
    if s != [] && IsSpace(s[0]) then TrimStart(s[1..]) else s
  }

  /** `str.rstrip()`: the longest prefix of `s` that does not end with whitespace. */
  function TrimEnd(s: string): (r: string)
    ensures |r| <= |s| && r == s[..|r|]
    ensures r == [] || !IsSpace(r[|r| - 1])
    ensures forall i :: |r| <= i < |s| ==> IsSpace(s[i])
  {
    if s != [] && IsSpace(s[|s| - 1]) then TrimEnd(s[..|s| - 1]) else s
  }

  /** `str.strip()`: no whitespace is left at either end, and only an
      all-whitespace string strips to nothing. */
  function Strip(s: string): (r: string)
    ensures |r| <= |s|
    ensures r == [] || (!IsSpace(r[0]) && !IsSpace(r[|r| - 1]))
    ensures r == [] <==> AllSpace(s)
  {
    var t := TrimStart(s);
    assert t == [] <==> AllSpace(s) by {
      var k := |s| - |t|;
      assert forall i :: k <= i < |s| ==> s[i] == t[i - k];
    }
    TrimEnd(t)
  }

  /** `re.sub(r'[\x00-\x1f\x7f-\x9f]', '', s)`. */
  function DropControls(s: string): (r: string)
    ensures |r| <= |s|
    ensures NoControl(r)
  {
    if s == [] then []
    else if IsControl(s[0]) then DropControls(s[1..])
    else [s[0]] + DropControls(s[1..])
  }

  /** `re.sub(r'\s+', ' ', s)`: each maximal whitespace run, scanned from the
      left, becomes a single space. */
  function Collapse(s: string): (r: string)
    decreases |s|
    ensures r == [] <==> s == []
    ensures r != [] ==> (IsSpace(r[0]) <==> IsSpace(s[0]))
    ensures NoRepeatedSpace(r)
    ensures forall i :: 0 <= i < |r| && IsSpace(r[i]) ==> r[i] == ' '
    ensures NoControl(s) ==> NoControl(r)
  {
    if s == [] then []
    else if IsSpace(s[0]) then
      var t := TrimStart(s);
      assert NoControl(s) ==> NoControl(t) by {
        assert forall i :: 0 <= i < |t| ==> t[i] == s[|s| - |t| + i];
      }
      [' '] + Collapse(t)
    else [s[0]] + Collapse(s[1..])
  }

  /** `sanitize_input`: empty input gives the empty string; otherwise strip,
      drop control characters, collapse whitespace runs. */
  function Sanitize(text: string): (r: string)
    ensures text == [] ==> r == []
    ensures NoControl(r)
    ensures NoRepeatedSpace(r)
    ensures forall i :: 0 <= i < |r| && IsSpace(r[i]) ==> r[i] == ' '
  {
    if text == [] then [] else Collapse(DropControls(Strip(text)))
  }

  lemma {:induction false} NonSpacesAppend(a: string, b: string)
    ensures NonSpaces(a + b) == NonSpaces(a) + NonSpaces(b)
    decreases |a|
  {
    if a == [] {
      assert a + b == b;
    } else {
      var head := if IsSpace(a[0]) then [] else [a[0]];
      assert (a + b)[1..] == a[1..] + b;
      NonSpacesAppend(a[1..], b);
      calc {
        NonSpaces(a + b);
        head + NonSpaces(a[1..] + b);
        head + (NonSpaces(a[1..]) + NonSpaces(b));
        (head + NonSpaces(a[1..])) + NonSpaces(b);
      }
    }
  }

  lemma {:induction false} TrimStartKeepsText(s: string)
    ensures NonSpaces(TrimStart(s)) == NonSpaces(s)
    decreases |s|
  {
    if s != [] && IsSpace(s[0]) {
      TrimStartKeepsText(s[1..]);
    }
  }

  lemma {:induction false} TrimEndKeepsText(s: string)
    ensures NonSpaces(TrimEnd(s)) == NonSpaces(s)
    decreases |s|
  {
    if s != [] && IsSpace(s[|s| - 1]) {
      var n := |s| - 1;
      TrimEndKeepsText(s[..n]);
      assert s == s[..n] + [s[n]];
      NonSpacesAppend(s[..n], [s[n]]);
      assert NonSpaces([s[n]]) == [];
    }
  }

  /** Stripping only removes whitespace. */
  lemma StripKeepsText(s: string)
    ensures NonSpaces(Strip(s)) == NonSpaces(s)
  {
    TrimStartKeepsText(s);
    TrimEndKeepsText(TrimStart(s));
  }

  /** Collapsing whitespace leaves the visible text as it was. */
  lemma {:induction false} CollapseKeepsText(s: string)
    ensures NonSpaces(Collapse(s)) == NonSpaces(s)
    decreases |s|
  {
    if s != [] && IsSpace(s[0]) {
      var t := TrimStart(s);
      assert NonSpaces(Collapse(s)) == NonSpaces(Collapse(t)) by {
        NonSpacesAppend([' '], Collapse(t));
      }
      TrimStartKeepsText(s);
      CollapseKeepsText(t);
    } else if s != [] {
      assert NonSpaces(Collapse(s)) == [s[0]] + NonSpaces(Collapse(s[1..])) by {
        NonSpacesAppend([s[0]], Collapse(s[1..]));
      }
      CollapseKeepsText(s[1..]);
    }
  }

  /** Dropping control characters and dropping whitespace commute. */
  lemma {:induction false} DropControlsKeepsText(s: string)
    ensures NonSpaces(DropControls(s)) == DropControls(NonSpaces(s))
    decreases |s|
  {
    if s != [] {
      DropControlsKeepsText(s[1..]);
      var head := if IsControl(s[0]) then [] else [s[0]];
      assert DropControls(s) == head + DropControls(s[1..]);
      NonSpacesAppend(head, DropControls(s[1..]));
      var vis := if IsSpace(s[0]) then [] else [s[0]];
      assert NonSpaces(s) == vis + NonSpaces(s[1..]);
      DropControlsAppend(vis, NonSpaces(s[1..]));
    }
  }

  lemma {:induction false} DropControlsAppend(a: string, b: string)
    ensures DropControls(a + b) == DropControls(a) + DropControls(b)
    decreases |a|
  {
    if a != [] {
      assert (a + b)[1..] == a[1..] + b;
      DropControlsAppend(a[1..], b);
      var head := if IsControl(a[0]) then [] else [a[0]];
      calc {
        DropControls(a + b);
        head + DropControls(a[1..] + b);
        head + (DropControls(a[1..]) + DropControls(b));
        (head + DropControls(a[1..])) + DropControls(b);
      }
    } else {
      assert a + b == b;
    }
  }

  /** What the sanitiser keeps: the characters that are neither whitespace nor
      control characters, all of them and in their original order. */
  lemma SanitizeKeepsText(text: string)
    ensures NonSpaces(Sanitize(text)) == DropControls(NonSpaces(text))
  {
    if text != [] {
      var stripped := Strip(text);
      CollapseKeepsText(DropControls(stripped));
      DropControlsKeepsText(stripped);
      StripKeepsText(text);
    }
  }

  lemma {:induction false} DropControlsKeepsClean(s: string)
    requires NoControl(s)
    ensures DropControls(s) == s
    decreases |s|
  {
    if s != [] {
      DropControlsKeepsClean(s[1..]);
    }
  }

  lemma {:induction false} CollapseKeepsSpaceless(s: string)
    requires forall i :: 0 <= i < |s| ==> !IsSpace(s[i])
    ensures Collapse(s) == s
    decreases |s|
  {
    if s != [] {
      CollapseKeepsSpaceless(s[1..]);
    }
  }

  lemma {:induction false} TrimStartSkips(pre: string, rest: string)
    requires AllSpace(pre)
    requires rest == [] || !IsSpace(rest[0])
    ensures TrimStart(pre + rest) == rest
    decreases |pre|
  {
    if pre == [] {
      assert pre + rest == rest;
    } else {
      assert (pre + rest)[1..] == pre[1..] + rest;
      TrimStartSkips(pre[1..], rest);
    }
  }

  lemma {:induction false} TrimEndSkips(rest: string, post: string)
    requires AllSpace(post)
    requires rest == [] || !IsSpace(rest[|rest| - 1])
    ensures TrimEnd(rest + post) == rest
    decreases |post|
  {
    if post == [] {
      assert rest + post == rest;
    } else {
      var n := |post| - 1;
      assert (rest + post)[..|rest + post| - 1] == rest + post[..n];
      TrimEndSkips(rest, post[..n]);
    }
  }

  /** A word with no whitespace and no control character inside. */
  predicate IsWord(w: string)
  {
    w != [] && NoControl(w) && forall i :: 0 <= i < |w| ==> !IsSpace(w[i])
  }

  lemma StripUnpads(pre: string, w: string, post: string)
    requires AllSpace(pre) && AllSpace(post) && IsWord(w)
    ensures Strip(pre + w + post) == w
  {
    assert pre + w + post == pre + (w + post);
    TrimStartSkips(pre, w + post);
    TrimEndSkips(w, post);
  }

  /** Input made only of whitespace sanitises to the empty string. */
  lemma SanitizeBlank(text: string)
    requires AllSpace(text)
    ensures Sanitize(text) == []
  {
    if text != [] {
      assert Strip(text) == [];
    }
  }

  /** Whitespace around a word is removed: `sanitize(" a@b.com \t")` is "a@b.com". */
  lemma SanitizeUnpads(pre: string, w: string, post: string)
    requires AllSpace(pre) && AllSpace(post) && IsWord(w)
    ensures Sanitize(pre + w + post) == w
  {
    var s := pre + w + post;
    StripUnpads(pre, w, post);
    calc {
      Sanitize(s);
      Collapse(DropControls(w));
      { DropControlsKeepsClean(w); }
      Collapse(w);
      { CollapseKeepsSpaceless(w); }
      w;
    }
  }

  /** Strip leaves alone a string with no whitespace at either end. */
  lemma StripKeepsBare(s: string)
    requires s != [] && !IsSpace(s[0]) && !IsSpace(s[|s| - 1])
    ensures Strip(s) == s
  {
    assert TrimStart(s) == s;
  }

  lemma DropControlsFront(c: char, t: string)
    requires IsControl(c) && NoControl(t)
    ensures DropControls([c] + t) == t
  {
    assert ([c] + t)[1..] == t;
    DropControlsKeepsClean(t);
  }

  lemma CollapseSpaceThenWord(w: string)
    requires IsWord(w)
    ensures Collapse([' '] + w) == [' '] + w
  {
    TrimStartSkips([' '], w);
    CollapseKeepsSpaceless(w);
  }

  lemma WordsJoin(a: string, b: string)
    requires IsWord(a) && IsWord(b)
    ensures IsWord(a + b)
  {
    assert forall i :: 0 <= i < |a + b| ==> (a + b)[i] == if i < |a| then a[i] else b[i - |a|];
  }

  lemma DropControlsBetween(a: string, c: char, b: string)
    requires NoControl(a) && NoControl(b) && IsControl(c)
    ensures DropControls(a + [c] + b) == a + b
  {
    DropControlsAppend(a + [c], b);
    DropControlsAppend(a, [c]);
    DropControlsKeepsClean(a);
    DropControlsKeepsClean(b);
    assert DropControls([c]) == [];
    assert a + [] == a;
  }

  /** A whitespace run that is followed by text or by nothing collapses to
      one space. */
  lemma CollapseSpaceRun(p: string, rest: string)
    requires p != [] && AllSpace(p) && (rest == [] || !IsSpace(rest[0]))
    ensures Collapse(p + rest) == [' '] + Collapse(rest)
  {
    assert (p + rest)[0] == p[0];
    TrimStartSkips(p, rest);
  }

  /** Text without whitespace passes the third pass unchanged, whatever follows. */
  lemma {:induction false} CollapseWordPrefix(w: string, t: string)
    requires forall i :: 0 <= i < |w| ==> !IsSpace(w[i])
    ensures Collapse(w + t) == w + Collapse(t)
    decreases |w|
  {
    if w == [] {
      assert w + t == t;
    } else {
      var u := w + t;
      assert u[0] == w[0] && u[1..] == w[1..] + t;
      calc {
        Collapse(u);
        [w[0]] + Collapse(w[1..] + t);
        { CollapseWordPrefix(w[1..], t); }
        [w[0]] + (w[1..] + Collapse(t));
        { assert [w[0]] + w[1..] == w; }
        w + Collapse(t);
      }
    }
  }

  /** The run between a word and what follows becomes exactly one space: the
      run is neither kept whole nor deleted. */
  lemma CollapseRun(w: string, p: string, rest: string)
    requires IsWord(w) && p != [] && AllSpace(p) && (rest == [] || !IsSpace(rest[0]))
    ensures Collapse(w + p + rest) == w + [' '] + Collapse(rest)
  {
    assert w + p + rest == w + (p + rest);
    CollapseWordPrefix(w, p + rest);
    CollapseSpaceRun(p, rest);
  }

  /** Words separated by whitespace stay separated by one space:
      `sanitize("my   pass")` is "my pass". */
  lemma SanitizeJoinsWords(a: string, p: string, b: string)
    requires IsWord(a) && IsWord(b) && p != [] && AllSpace(p) && NoControl(p)
    ensures Sanitize(a + p + b) == a + [' '] + b
  {
    var s := a + p + b;
    assert s[0] == a[0] && s[|s| - 1] == b[|b| - 1];
    StripKeepsBare(s);
    assert NoControl(s) by {
      assert forall i :: 0 <= i < |s| ==>
        s[i] == if i < |a| then a[i] else if i < |a| + |p| then p[i - |a|] else b[i - |a| - |p|];
    }
    DropControlsKeepsClean(s);
    CollapseRun(a, p, b);
    CollapseKeepsSpaceless(b);
  }

  /** A control character inside a word is removed, a tab or newline
      included: `sanitize("a\x01b")` is "ab", and `sanitize("my\tpass")` is "mypass". */
  lemma SanitizeDropsControl(a: string, c: char, b: string)
    requires IsWord(a) && IsWord(b) && IsControl(c)
    ensures Sanitize(a + [c] + b) == a + b
  {
    var s := a + [c] + b;
    assert s[0] == a[0] && s[|s| - 1] == b[|b| - 1];
    StripKeepsBare(s);
    DropControlsBetween(a, c, b);
    WordsJoin(a, b);
    CollapseKeepsSpaceless(a + b);
  }

  /** The output is not always trimmed: a control character in front of a space
      is removed only after the strip has run, so `sanitize("\x01 a")` is " a". */
  lemma SanitizeMayLeadWithSpace(c: char, w: string)
    requires IsControl(c) && !IsSpace(c) && IsWord(w)
    ensures Sanitize([c, ' '] + w) == [' '] + w
  {
    var s := [c, ' '] + w;
    assert s[|s| - 1] == w[|w| - 1];
    StripKeepsBare(s);
    assert s == [c] + ([' '] + w);
    assert NoControl([' '] + w) by {
      assert forall i :: 0 <= i < |w| ==> ([' '] + w)[i + 1] == w[i];
    }
    DropControlsFront(c, [' '] + w);
    CollapseSpaceThenWord(w);
  }
}
