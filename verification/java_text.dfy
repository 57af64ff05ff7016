/**
 * The few `java.lang.String` operations the services use, with Java's own edge
 * cases: `split` on a one-character separator, `trim`, `contains`, `startsWith`,
 * `replace(target, "")` and `equalsIgnoreCase` against a lower-case ASCII word.
 */
module JavaText {

  /** `s.startsWith(p)`. */
  predicate StartsWith(s: string, p: string) {
    |p| <= |s| && s[..|p|] == p
  }

  /** `s.contains(t)`: some position of `s` starts an occurrence of `t`. */
  predicate Contains(s: string, t: string)
    decreases |s|
  {
    StartsWith(s, t) || (s != [] && Contains(s[1..], t))
  }

  lemma {:induction false} ContainsAt(s: string, t: string, i: nat)
    requires i + |t| <= |s| && s[i..i + |t|] == t
    ensures Contains(s, t)
    decreases i
  {
    if i > 0 {
      assert s[1..][i - 1..i - 1 + |t|] == t;
      ContainsAt(s[1..], t, i - 1);
    }
  }

  /** A string that lacks the first character of `t` cannot contain `t`. */
  lemma {:induction false} MissingCharNotContained(s: string, t: string)
    requires t != [] && t[0] !in s
    ensures !Contains(s, t)
    decreases |s|
  {
    if s != [] {
      assert s[0] != t[0];
      assert s == [s[0]] + s[1..];
      MissingCharNotContained(s[1..], t);
    }
  }

  /** `s.replace(t, "")`: every non-overlapping occurrence of `t`, scanned left to right, removed. */
  function RemoveAll(s: string, t: string): (r: string)
    requires t != []
    ensures |r| <= |s|
    ensures !Contains(s, t) ==> r == s
    decreases |s|
  {
    if |s| < |t| then s
    else if s[..|t|] == t then RemoveAll(s[|t|..], t)
    else [s[0]] + RemoveAll(s[1..], t)
  }

  /** An occurrence of `t` starts at position `i` of `s`. */
  predicate OccursAt(s: string, t: string, i: int) {
    0 <= i && i + |t| <= |s| && s[i..i + |t|] == t
  }

  /**
   * The scan removes the first occurrence and goes on after it: when `t` does not
   * start anywhere inside `a`, the text `a + t + b` loses that `t` and keeps `a`
   * whole. With the identity on text without `t`, this fixes `replace(t, "")`.
   */
  lemma {:induction false} RemoveAllFirst(a: string, t: string, b: string)
    requires t != []
    requires forall i :: 0 <= i < |a| ==> !OccursAt(a + t + b, t, i)
    ensures RemoveAll(a + t + b, t) == a + RemoveAll(b, t)
    decreases |a|
  {
    var s := a + t + b;
    if a == [] {
      assert s == t + b && s[..|t|] == t && s[|t|..] == b;
    } else {
      assert !OccursAt(s, t, 0);
      assert s[..|t|] != t;
      var a' := a[1..];
      assert s[1..] == a' + t + b;
      forall i | 0 <= i < |a'| ensures !OccursAt(a' + t + b, t, i) {
        assert !OccursAt(s, t, i + 1);
        assert (a' + t + b)[i..i + |t|] == s[i + 1..i + 1 + |t|];
      }
      RemoveAllFirst(a', t, b);
      assert [s[0]] + (a' + RemoveAll(b, t)) == a + RemoveAll(b, t);
    }
  }

  /** The characters that `String.trim()` strips: every code unit up to U+0020. */
  predicate IsTrimmed(c: char) {
    c <= ' '
  }

  function TrimStart(s: string): (r: string)
    ensures |r| <= |s| && r == s[|s| - |r|..]
    ensures r != [] ==> !IsTrimmed(r[0])
    ensures forall i :: 0 <= i < |s| - |r| ==> IsTrimmed(s[i])
  {
    if s != [] && IsTrimmed(s[0]) then TrimStart(s[1..]) else s
  }

  function TrimEnd(s: string): (r: string)
    ensures |r| <= |s| && r == s[..|r|]
    ensures r != [] ==> !IsTrimmed(r[|r| - 1])
    ensures forall i :: |r| <= i < |s| ==> IsTrimmed(s[i])
  {
    if s != [] && IsTrimmed(s[|s| - 1]) then TrimEnd(s[..|s| - 1]) else s
  }

  /** `r` occurs in `s` starting at position `k`. */
  predicate SliceAt(s: string, r: string, k: int) {
    0 <= k <= |s| - |r| && r == s[k..k + |r|]
  }

  /** `r` sits at position `k` of `s`, and everything of `s` before and after it is a trimmed character. */
  predicate TrimmedAround(s: string, r: string, k: int) {
    SliceAt(s, r, k) &&
    (forall i :: 0 <= i < k ==> IsTrimmed(s[i])) &&
    (forall i :: k + |r| <= i < |s| ==> IsTrimmed(s[i]))
  }

  /**
   * `s.trim()`: the middle slice left once every trimmed character is cut from both
   * ends; it neither starts nor ends with one, so no other slice qualifies.
   */
  function Trim(s: string): (r: string)
    ensures |r| <= |s|
    ensures r != [] ==> !IsTrimmed(r[0]) && !IsTrimmed(r[|r| - 1])
    ensures exists k :: TrimmedAround(s, r, k)
  {
    var a := TrimStart(s);
    var r := TrimEnd(a);
    TrimCut(s, a, r);
    r
  }

  /** Cutting trimmed characters from the front and then from the back leaves `r` trimmed around. */
  lemma TrimCut(s: string, a: string, r: string)
    requires |a| <= |s| && a == s[|s| - |a|..] && forall i :: 0 <= i < |s| - |a| ==> IsTrimmed(s[i])
    requires |r| <= |a| && r == a[..|r|] && forall i :: |r| <= i < |a| ==> IsTrimmed(a[i])
    ensures TrimmedAround(s, r, |s| - |a|)
  {
    var k := |s| - |a|;
    assert s[k..k + |r|] == a[..|r|];
    forall i | k + |r| <= i < |s| ensures IsTrimmed(s[i]) {
      assert s[i] == a[i - k];
    }
  }

  /** The cut is unique: any slice with only trimmed characters around it and none at its ends is the trim. */
  lemma TrimUnique(s: string, r: string, k: int)
    requires TrimmedAround(s, r, k)
    requires r != [] ==> !IsTrimmed(r[0]) && !IsTrimmed(r[|r| - 1])
    ensures r == Trim(s)
  {
    var t := Trim(s);
    var k' :| TrimmedAround(s, t, k');
    if r != [] && t != [] {
      assert s[k] == r[0] && s[k'] == t[0];
      assert s[k + |r| - 1] == r[|r| - 1] && s[k' + |t| - 1] == t[|t| - 1];
      assert k == k' && |r| == |t|;
    }
  }

  /** Trimming never brings in a character that was not there. */
  lemma TrimKeepsOut(s: string, c: char)
    requires c !in s
    ensures c !in Trim(s)
  {
    var r := Trim(s);
    var k :| TrimmedAround(s, r, k);
  }

  /**
   * Every piece between occurrences of `sep`, empty pieces included: the first step
   * of Java's `split`.
   */
  function SplitAll(s: string, sep: char): (parts: seq<string>)
    ensures |parts| >= 1
    ensures forall i :: 0 <= i < |parts| ==> sep !in parts[i]
    ensures sep !in s ==> parts == [s]
  {
    if s == [] then [[]]
    else if s[0] == sep then [[]] + SplitAll(s[1..], sep)
    else
      var rest := SplitAll(s[1..], sep);
      assert sep !in s ==> sep !in s[1..] && [s[0]] + s[1..] == s;
      [[s[0]] + rest[0]] + rest[1..]
  }

  /** The inverse of SplitAll: the pieces glued back together with `sep`. */
  function JoinWith(parts: seq<string>, sep: char): string
    requires |parts| >= 1
  {
    if |parts| == 1 then parts[0] else parts[0] + [sep] + JoinWith(parts[1..], sep)
  }

  lemma {:induction false} JoinSplit(s: string, sep: char)
    ensures JoinWith(SplitAll(s, sep), sep) == s
  {
    if s == [] {
    } else if s[0] == sep {
      JoinSplit(s[1..], sep);
      assert SplitAll(s, sep)[1..] == SplitAll(s[1..], sep);
    } else {
      var rest := SplitAll(s[1..], sep);
      JoinSplit(s[1..], sep);
      var parts := [[s[0]] + rest[0]] + rest[1..];
      if |rest| == 1 {
      } else {
        assert parts[1..] == rest[1..];
        assert JoinWith(rest, sep) == rest[0] + [sep] + JoinWith(rest[1..], sep);
      }
    }
  }

  /** Splitting text around one separator is splitting each side and concatenating the lists. */
  lemma {:induction false} SplitAllAppend(a: string, sep: char, b: string)
    ensures SplitAll(a + [sep] + b, sep) == SplitAll(a, sep) + SplitAll(b, sep)
  {
    if a == [] {
      assert a + [sep] + b == [sep] + b;
      SplitAllCons(sep, b, sep);
    } else {
      var t := a[1..];
      assert a == [a[0]] + t;
      assert a + [sep] + b == [a[0]] + (t + [sep] + b);
      SplitAllAppend(t, sep, b);
      SplitAllCons(a[0], t + [sep] + b, sep);
      SplitAllCons(a[0], t, sep);
      if a[0] == sep {
        ConcatAssoc([[]], SplitAll(t, sep), SplitAll(b, sep));
      } else {
        FirstPieceJoined([a[0]], SplitAll(t, sep), SplitAll(b, sep));
      }
    }
  }

  /** SplitAll one character at a time: a separator opens a new piece, any other character joins the first. */
  lemma SplitAllCons(c: char, t: string, sep: char)
    ensures SplitAll([c] + t, sep) ==
      if c == sep then [[]] + SplitAll(t, sep) else [[c] + SplitAll(t, sep)[0]] + SplitAll(t, sep)[1..]
  {
    assert ([c] + t)[0] == c && ([c] + t)[1..] == t;
  }

  lemma FirstPieceJoined(x: string, front: seq<string>, back: seq<string>)
    requires |front| >= 1
    ensures [x + (front + back)[0]] + (front + back)[1..] == ([x + front[0]] + front[1..]) + back
  {
    assert (front + back)[0] == front[0] && (front + back)[1..] == front[1..] + back;
    ConcatAssoc([x + front[0]], front[1..], back);
  }

  /** Concatenation of lists of strings regroups freely. */
  lemma ConcatAssoc(a: seq<string>, b: seq<string>, c: seq<string>)
    ensures a + b + c == a + (b + c)
  {
  }

  /** Text that does not end with the separator has a non-empty last piece. */
  lemma {:induction false} SplitAllLastPiece(s: string, sep: char)
    requires s != [] && s[|s| - 1] != sep
    ensures var parts := SplitAll(s, sep); parts[|parts| - 1] != []
  {
    if |s| > 1 {
      assert s[1..][|s[1..]| - 1] == s[|s| - 1];
      SplitAllLastPiece(s[1..], sep);
    }
  }

  /** Every piece is empty exactly when the text holds nothing but separators. */
  lemma {:induction false} SplitAllOnlySeparators(s: string, sep: char)
    ensures (forall i :: 0 <= i < |SplitAll(s, sep)| ==> SplitAll(s, sep)[i] == []) <==>
            (forall i :: 0 <= i < |s| ==> s[i] == sep)
  {
    if s != [] {
      SplitAllOnlySeparators(s[1..], sep);
      assert forall i :: 1 <= i < |s| ==> s[i] == s[1..][i - 1];
      var parts, rest := SplitAll(s, sep), SplitAll(s[1..], sep);
      if s[0] == sep {
        assert parts == [[]] + rest;
        assert forall i :: 0 <= i < |rest| ==> rest[i] == parts[i + 1];
      } else {
        assert parts[0] != [];
      }
    }
  }

  /** The text before the first `sep` (all of `s` when there is none). */
  function TextBefore(s: string, sep: char): string {
    SplitAll(s, sep)[0]
  }

  /** The list with its trailing empty strings removed, as Java's `split` does. */
  function DropTrailingEmpty(parts: seq<string>): (r: seq<string>)
    ensures |r| <= |parts| && r == parts[..|r|]
    ensures r != [] ==> r[|r| - 1] != []
    ensures forall i :: |r| <= i < |parts| ==> parts[i] == []
  {
    if parts == [] then []
    else if parts[|parts| - 1] == [] then DropTrailingEmpty(parts[..|parts| - 1])
    else parts
  }

  /**
   * `s.split(sep)` for a separator that is one ordinary character: a string without
   * the separator gives itself (so "" gives [""]); otherwise every piece, leading
   * empty pieces kept, trailing empty pieces dropped.
   */
  function JavaSplit(s: string, sep: char): (parts: seq<string>)
    ensures forall i :: 0 <= i < |parts| ==> sep !in parts[i]
    ensures sep !in s ==> parts == [s]
    ensures sep in s ==> parts == DropTrailingEmpty(SplitAll(s, sep))
  {
    if sep !in s then [s] else DropTrailingEmpty(SplitAll(s, sep))
  }

  /** Whenever `split` yields anything, its first part is the text before the first separator. */
  lemma FirstPartIsTextBefore(s: string, sep: char)
    requires JavaSplit(s, sep) != []
    ensures JavaSplit(s, sep)[0] == TextBefore(s, sep)
  {
  }

  /** `c.equalsIgnoreCase(lower)` for one ASCII lower-case letter `lower`; the Kelvin sign folds to 'k'. */
  predicate SameLetterIgnoringCase(c: char, lower: char)
    requires 'a' <= lower <= 'z'
  {
    c == lower || c as int == lower as int - 32 || (lower == 'k' && c == '\U{212A}')
  }

  /** `s.equalsIgnoreCase(word)` for a lower-case ASCII word. */
  predicate EqualsIgnoreCase(s: string, word: string)
    requires forall i :: 0 <= i < |word| ==> 'a' <= word[i] <= 'z'
  {
    |s| == |word| && forall i :: 0 <= i < |s| ==> SameLetterIgnoringCase(s[i], word[i])
  }
}
