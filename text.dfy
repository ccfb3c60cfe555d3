/** String operations of the JavaScript and Python standard libraries that the
    chat widget and its server use, written out on `seq<char>`. */
module Text {

  import opened Wrappers

  /** `s.startsWith(p)` (JavaScript) and `s.startswith(p)` (Python). */
  predicate StartsWith(s: string, p: string) {
    |p| <= |s| && s[..|p|] == p
  }

  /** Truthiness of a string that may be missing, in JavaScript and in
      Python alike: present and not empty. */
  predicate Truthy(s: Option<string>) {
    s.Some? && s.value != ""
  }

  lemma StartsWithConcat(a: string, b: string)
    ensures StartsWith(a + b, a)
  {
    assert (a + b)[..|a|] == a;
  }

  /** `p` occurs in `s`: Python's `p in s`. */
  predicate Contains(s: string, p: string)
    decreases |s|
  {
    StartsWith(s, p) || (s != [] && Contains(s[1..], p))
  }

  lemma {:induction false} ContainsAt(s: string, p: string, i: nat)
    requires i <= |s| && StartsWith(s[i..], p)
    ensures Contains(s, p)
    decreases i
  {
    if i > 0 {
      assert s[1..][i - 1..] == s[i..];
      ContainsAt(s[1..], p, i - 1);
    }
  }

  lemma {:induction false} ContainsWitness(s: string, p: string) returns (i: nat)
    requires Contains(s, p)
    ensures i <= |s| - |p| && s[i..i + |p|] == p
    decreases |s|
  {
    if StartsWith(s, p) {
      i := 0;
    } else {
      var j := ContainsWitness(s[1..], p);
      i := j + 1;
      assert s[i..i + |p|] == s[1..][j..j + |p|];
    }
  }

  /** An occurrence at a known position is an occurrence. */
  lemma OccursAt(s: string, p: string, i: nat)
    requires i + |p| <= |s| && s[i..i + |p|] == p
    ensures Contains(s, p)
  {
    assert s[i..][..|p|] == s[i..i + |p|];
    ContainsAt(s, p, i);
  }

  // ---------------------------------------------------------------------------
  // Whitespace

  /** ECMAScript LineTerminator: what a regular expression's `.` does not match. */
  predicate IsLineTerminator(c: char) {
    c == '\n' || c == '\r' || c == '\U{2028}' || c == '\U{2029}'
  }

  /** ECMAScript WhiteSpace (tab, vertical tab, form feed, the Unicode space
      separators, no-break space, byte order mark) or LineTerminator: what
      `String.prototype.trim` removes. */
  predicate IsJsWhitespace(c: char) {
    || c == '\t' || c == '\U{000B}' || c == '\U{000C}' || c == ' ' || c == '\U{00A0}' || c == '\U{FEFF}'
    || c == '\U{1680}' || ('\U{2000}' <= c <= '\U{200A}') || c == '\U{202F}' || c == '\U{205F}' || c == '\U{3000}'
    || IsLineTerminator(c)
  }

  /** Python's `str.isspace` for one character, which is also what `\s` matches
      in a `str` regular expression. */
  predicate IsPyWhitespace(c: char) {
    || ('\t' <= c <= '\r') || ('\U{001C}' <= c <= '\U{001F}') || c == ' ' || c == '\U{0085}' || c == '\U{00A0}'
    || c == '\U{1680}' || ('\U{2000}' <= c <= '\U{200A}') || c == '\U{2028}' || c == '\U{2029}'
    || c == '\U{202F}' || c == '\U{205F}' || c == '\U{3000}'
  }

  /** `s.strip() == ''` in Python: every character is whitespace. */
  predicate IsPyBlank(s: string) {
    forall i :: 0 <= i < |s| ==> IsPyWhitespace(s[i])
  }

  /** Where the text of `s` starts once the whitespace from `i` on is
      skipped. */
  function TrimStart(s: string, i: nat): (r: nat)
    requires i <= |s|
    ensures i <= r <= |s|
    ensures forall k :: i <= k < r ==> IsJsWhitespace(s[k])
    ensures r < |s| ==> !IsJsWhitespace(s[r])
    decreases |s| - i
  {
    if i < |s| && IsJsWhitespace(s[i]) then TrimStart(s, i + 1) else i
  }

  /** Where the text of `s[lo..j]` ends once the whitespace before `j` is
      dropped. */
  function TrimEnd(s: string, lo: nat, j: nat): (r: nat)
    requires lo <= j <= |s|
    ensures lo <= r <= j
    ensures forall k :: r <= k < j ==> IsJsWhitespace(s[k])
    ensures r > lo ==> !IsJsWhitespace(s[r - 1])
    decreases j
  {
    if j > lo && IsJsWhitespace(s[j - 1]) then TrimEnd(s, lo, j - 1) else j
  }

  /** `s.trim()` in JavaScript: a slice of `s` that neither starts nor ends with
      whitespace, everything outside it being whitespace. */
  function Trim(s: string): (r: string)
    ensures exists i, j :: 0 <= i <= j <= |s| && r == s[i..j]
                           && (forall k :: 0 <= k < i ==> IsJsWhitespace(s[k]))
                           && (forall k :: j <= k < |s| ==> IsJsWhitespace(s[k]))
    ensures r != [] ==> !IsJsWhitespace(r[0]) && !IsJsWhitespace(r[|r| - 1])
  {
    var i := TrimStart(s, 0);
    var j := TrimEnd(s, i, |s|);
    s[i..j]
  }

  /** `s.trim() === ''` exactly when every character of `s` is whitespace. */
  lemma TrimEmptyIff(s: string)
    ensures Trim(s) == [] <==> forall k :: 0 <= k < |s| ==> IsJsWhitespace(s[k])
  {
    if Trim(s) != [] {
      var i, j :| 0 <= i <= j <= |s| && Trim(s) == s[i..j];
      assert !IsJsWhitespace(s[i]);
    }
  }

  // ---------------------------------------------------------------------------
  // Replacement

  /** Replaces every occurrence of the character `c` in `s` by `rep`:
      JavaScript's `s.replace(/c/g, rep)` and Python's `s.replace(c, rep)`. */
  function ReplaceChar(s: string, c: char, rep: string): (r: string)
    ensures c !in rep ==> c !in r
    ensures c !in s ==> r == s
    ensures forall x :: x !in s && x !in rep ==> x !in r
    decreases |s|
  {
    if s == [] then []
    else (if s[0] == c then rep else [s[0]]) + ReplaceChar(s[1..], c, rep)
  }

  /** Python's `s.replace(pat, rep)`: every non-overlapping occurrence of `pat`,
      scanning left to right, is replaced by `rep`. */
  function ReplaceAll(s: string, pat: string, rep: string): (r: string)
    requires pat != []
    decreases |s|
  {
    if |s| < |pat| then s
    else if s[..|pat|] == pat then rep + ReplaceAll(s[|pat|..], pat, rep)
    else [s[0]] + ReplaceAll(s[1..], pat, rep)
  }

  /** A text that does not contain `pat` is left as it is. */
  lemma {:induction false} ReplaceAllAbsent(s: string, pat: string, rep: string)
    requires pat != [] && !Contains(s, pat)
    ensures ReplaceAll(s, pat, rep) == s
    decreases |s|
  {
    if |s| >= |pat| {
      ReplaceAllAbsent(s[1..], pat, rep);
    }
  }

  /** A character that is neither in the text nor in the replacement is not in
      the result. */
  lemma {:induction false} ReplaceAllKeepsOut(s: string, pat: string, rep: string, x: char)
    requires pat != [] && x !in s && x !in rep
    ensures x !in ReplaceAll(s, pat, rep)
    decreases |s|
  {
    if |s| >= |pat| {
      if s[..|pat|] == pat {
        ReplaceAllKeepsOut(s[|pat|..], pat, rep, x);
      } else {
        ReplaceAllKeepsOut(s[1..], pat, rep, x);
      }
    }
  }

  /** Wherever `pat` occurs, the result holds `rep`. */
  lemma {:induction false} ReplaceAllInserts(s: string, pat: string, rep: string)
    requires pat != [] && Contains(s, pat)
    ensures Contains(ReplaceAll(s, pat, rep), rep)
    decreases |s|
  {
    var i := ContainsWitness(s, pat);
    assert |pat| <= |s|;
    if StartsWith(s, pat) {
      var tail := ReplaceAll(s[|pat|..], pat, rep);
      assert ReplaceAll(s, pat, rep) == rep + tail;
      StartsWithConcat(rep, tail);
    } else {
      var rt := ReplaceAll(s[1..], pat, rep);
      ReplaceAllInserts(s[1..], pat, rep);
      assert ReplaceAll(s, pat, rep) == [s[0]] + rt;
      ContainsAfterHead(s[0], rt, rep);
    }
  }

  /** What occurs after the first character occurs in the whole. */
  lemma ContainsAfterHead(x: char, t: string, p: string)
    requires Contains(t, p)
    ensures Contains([x] + t, p)
  {
    assert ([x] + t)[1..] == t;
  }

  /** What occurs in a text occurs in any extension of it. */
  lemma ContainsExtend(s: string, t: string, p: string)
    requires Contains(s, p)
    ensures Contains(s + t, p)
  {
    var i := ContainsWitness(s, p);
    assert (s + t)[i..][..|p|] == s[i..][..|p|];
    ContainsAt(s + t, p, i);
  }

  /** Replacing by something longer never shortens the text, and lengthens it
      as soon as `pat` occurs. */
  lemma {:induction false} ReplaceAllGrows(s: string, pat: string, rep: string)
    requires pat != [] && |rep| > |pat|
    ensures |ReplaceAll(s, pat, rep)| >= |s|
    ensures Contains(s, pat) ==> |ReplaceAll(s, pat, rep)| > |s|
    decreases |s|
  {
    if |s| >= |pat| {
      if s[..|pat|] == pat {
        ReplaceAllGrows(s[|pat|..], pat, rep);
      } else {
        ReplaceAllGrows(s[1..], pat, rep);
      }
    } else if Contains(s, pat) {
      var i := ContainsWitness(s, pat);
    }
  }

  // ---------------------------------------------------------------------------
  // Joining and splitting

  /** Python's `sep.join(xs)`. */
  function Join(sep: string, xs: seq<string>): string
    decreases |xs|
  {
    if xs == [] then ""
    else if |xs| == 1 then xs[0]
    else xs[0] + sep + Join(sep, xs[1..])
  }

  /** The index of the first `c` in `s`, if any. */
  function IndexOf(s: string, c: char): (r: Option<nat>)
    ensures r.None? <==> c !in s
    ensures r.Some? ==> r.value < |s| && s[r.value] == c && c !in s[..r.value]
    decreases |s|
  {
    if s == [] then None
    else if s[0] == c then Some(0)
    else match IndexOf(s[1..], c)
      case None => None
      case Some(k) => Some(k + 1)
  }

  /** Python's `s.split(c)` for a one-character separator. */
  function Split(s: string, c: char): (r: seq<string>)
    ensures |r| >= 1
    ensures forall k :: 0 <= k < |r| ==> c !in r[k]
    decreases |s|
  {
    match IndexOf(s, c)
    case None => [s]
    case Some(k) => [s[..k]] + Split(s[k + 1..], c)
  }

  lemma JoinCons(sep: string, a: string, xs: seq<string>)
    requires xs != []
    ensures Join(sep, [a] + xs) == a + sep + Join(sep, xs)
  {
    assert ([a] + xs)[1..] == xs;
  }

  lemma SplitAt(s: string, c: char, k: nat)
    requires IndexOf(s, c) == Some(k)
    ensures Split(s, c) == [s[..k]] + Split(s[k + 1..], c)
  {
  }

  /** Splitting on `c` and joining with `c` gives the text back. */
  lemma {:induction false} JoinSplit(s: string, c: char)
    ensures Join([c], Split(s, c)) == s
    decreases |s|
  {
    match IndexOf(s, c)
    case Some(k) =>
      SplitAt(s, c, k);
      JoinSplit(s[k + 1..], c);
      JoinAround(s, c, k, Split(s[k + 1..], c));
    case None =>
      assert Split(s, c) == [s];
  }

  /** The text before the first `c`, the `c`, and the join of the rest give
      the text back. */
  lemma JoinAround(s: string, c: char, k: nat, rest: seq<string>)
    requires k < |s| && s[k] == c && rest != []
    requires Join([c], rest) == s[k + 1..]
    ensures Join([c], [s[..k]] + rest) == s
  {
    JoinCons([c], s[..k], rest);
    assert s == s[..k] + [c] + s[k + 1..];
  }

  /** A position inside an occurrence of `p` holds a character of `p`. */
  lemma InsideOccurrence(s: string, p: string, i: nat, k: nat)
    requires i + |p| <= |s| && s[i..i + |p|] == p && k < |s|
    ensures i <= k < i + |p| ==> s[k] in p
  {
    if i <= k < i + |p| {
      assert p[k - i] == s[k];
    }
  }

  /** A piece of text that contains no `c` and occurs in `s` occurs inside one
      of the pieces `s.split(c)` gives. */
  lemma {:induction false} ContainsInSomePiece(s: string, c: char, p: string)
    requires c !in p && Contains(s, p)
    ensures exists k :: 0 <= k < |Split(s, c)| && Contains(Split(s, c)[k], p)
    decreases |s|
  {
    var i := ContainsWitness(s, p);
    var ix := IndexOf(s, c);
    var parts := Split(s, c);
    if ix.None? {
      assert parts == [s];
      assert Contains(parts[0], p);
    } else {
      var k := ix.value;
      var t := s[k + 1..];
      var rest := Split(t, c);
      SplitAt(s, c, k);
      assert parts == [s[..k]] + rest;
      InsideOccurrence(s, p, i, k);
      if i + |p| <= k {
        assert s[..k][i..i + |p|] == s[i..i + |p|];
        OccursAt(s[..k], p, i);
        assert Contains(parts[0], p);
      } else {
        assert k < i;
        assert t[i - k - 1..i - k - 1 + |p|] == s[i..i + |p|];
        OccursAt(t, p, i - k - 1);
        ContainsInSomePiece(t, c, p);
        var m :| 0 <= m < |rest| && Contains(rest[m], p);
        assert parts[m + 1] == rest[m];
        assert Contains(parts[m + 1], p);
      }
    }
  }

  // ---------------------------------------------------------------------------
  // Counting and concatenating

  /** How many times `c` occurs in `s`. */
  function Occurrences(s: string, c: char): (n: nat)
    ensures n <= |s|
    ensures n == 0 <==> c !in s
  {
    if s == [] then 0 else (if s[0] == c then 1 else 0) + Occurrences(s[1..], c)
  }

  lemma {:induction false} OccurrencesAppend(a: string, b: string, c: char)
    ensures Occurrences(a + b, c) == Occurrences(a, c) + Occurrences(b, c)
  {
    if a != [] {
      assert (a + b)[1..] == a[1..] + b;
      OccurrencesAppend(a[1..], b, c);
    } else {
      assert a + b == b;
    }
  }

  /** `f` applied to each element, the results concatenated in order. */
  function ConcatMap<T>(xs: seq<T>, f: T -> string): string
    decreases |xs|
  {
    if xs == [] then "" else ConcatMap(xs[..|xs| - 1], f) + f(xs[|xs| - 1])
  }

  lemma ConcatMapStep<T>(xs: seq<T>, i: nat, f: T -> string)
    requires i < |xs|
    ensures ConcatMap(xs[..i + 1], f) == ConcatMap(xs[..i], f) + f(xs[i])
  {
    assert xs[..i + 1][..i] == xs[..i];
  }

  lemma {:induction false} ConcatMapAppend<T>(xs: seq<T>, ys: seq<T>, f: T -> string)
    ensures ConcatMap(xs + ys, f) == ConcatMap(xs, f) + ConcatMap(ys, f)
    decreases |ys|
  {
    if ys == [] {
      assert xs + ys == xs;
    } else {
      var init := ys[..|ys| - 1];
      var all := xs + ys;
      assert all[..|all| - 1] == xs + init && all[|all| - 1] == ys[|ys| - 1];
      ConcatMapAppend(xs, init, f);
    }
  }

  /** When every piece holds `c` exactly once, the concatenation holds it once
      per element. */
  lemma {:induction false} ConcatMapOccurrences<T>(xs: seq<T>, f: T -> string, c: char)
    requires forall k :: 0 <= k < |xs| ==> Occurrences(f(xs[k]), c) == 1
    ensures Occurrences(ConcatMap(xs, f), c) == |xs|
    decreases |xs|
  {
    if xs != [] {
      var init := xs[..|xs| - 1];
      assert forall k :: 0 <= k < |init| ==> init[k] == xs[k];
      ConcatMapOccurrences(init, f, c);
      OccurrencesAppend(ConcatMap(init, f), f(xs[|xs| - 1]), c);
    }
  }
}
