/** The JavaScript string operations the alert bridge relies on:
    `trim`, `toLowerCase`, `startsWith`, `includes`, `replace` with a string
    pattern (first occurrence only), global single-character replacement and
    removal, and the decimal rendering of a number in a template literal. */
module JsText {
  import opened Wrappers

  /** The code points `String.prototype.trim` removes: ECMAScript WhiteSpace
      (tab, vertical tab, form feed, space, no-break space, byte order mark and
      the Unicode space separators) and LineTerminator (LF, CR, LS, PS). */
  predicate IsSpace(c: char) {
    || c == '\t' || c == '\n' || c == '\U{000B}' || c == '\U{000C}' || c == '\r'
    || c == ' ' || c == '\U{00A0}' || c == '\U{1680}'
    || ('\U{2000}' <= c <= '\U{200A}')
    || c == '\U{2028}' || c == '\U{2029}' || c == '\U{202F}' || c == '\U{205F}'
    || c == '\U{3000}' || c == '\U{FEFF}'
  }

  ghost predicate AllSpace(s: string) {
    forall i :: 0 <= i < |s| ==> IsSpace(s[i])
  }

  /** A string with no removable space at either end. */
  ghost predicate IsTrimmed(s: string) {
    s == [] || (!IsSpace(s[0]) && !IsSpace(s[|s| - 1]))
  }

  /** The number of spaces `s` starts with. */
  function LeadingSpaces(s: string): (k: nat)
    ensures k <= |s|
    ensures forall i :: 0 <= i < k ==> IsSpace(s[i])
    ensures k < |s| ==> !IsSpace(s[k])
  {
    if |s| > 0 && IsSpace(s[0]) then 1 + LeadingSpaces(s[1..]) else 0
  }

  /** The number of spaces `s` ends with. */
  function TrailingSpaces(s: string): (k: nat)
    ensures k <= |s|
    ensures forall i :: |s| - k <= i < |s| ==> IsSpace(s[i])
    ensures k < |s| ==> !IsSpace(s[|s| - k - 1])
  {
    if |s| > 0 && IsSpace(s[|s| - 1]) then 1 + TrailingSpaces(s[..|s| - 1]) else 0
  }

  /** Drops the leading spaces: the result is a suffix of `s`, everything
      dropped is space, and the result does not start with a space. */
  function TrimStart(s: string): (r: string)
    ensures |r| <= |s| && r == s[|s| - |r|..]
    ensures AllSpace(s[..|s| - |r|])
    ensures r == [] || !IsSpace(r[0])
  {
    s[LeadingSpaces(s)..]
  }

  /** Drops the trailing spaces: the result is a prefix of `s`, everything
      dropped is space, and the result does not end with a space. */
  function TrimEnd(s: string): (r: string)
    ensures |r| <= |s| && r == s[..|r|]
    ensures AllSpace(s[|r|..])
    ensures r == [] || !IsSpace(r[|r| - 1])
  {
    s[..|s| - TrailingSpaces(s)]
  }

  /** `s` is `core` with spaces around it. */
  ghost predicate PaddedBy(s: string, core: string) {
    exists w1, w2 :: s == w1 + core + w2 && AllSpace(w1) && AllSpace(w2)
  }

  /** A space-only prefix cut from `s`, then a space-only suffix cut from
      what is left, leaves `s` padded around the rest. */
  lemma CutsArePadding(s: string, a: string, r: string)
    requires |a| <= |s| && a == s[|s| - |a|..] && AllSpace(s[..|s| - |a|])
    requires |r| <= |a| && r == a[..|r|] && AllSpace(a[|r|..])
    ensures PaddedBy(s, r)
  {
    var w1, w2 := s[..|s| - |a|], a[|r|..];
    assert s == w1 + a;
    assert a == r + w2;
    assert s == w1 + r + w2;
  }

  /** Trimming the end of a string that does not start with a space leaves it
      trimmed at both ends. */
  lemma TrimEndKeepsStart(a: string)
    requires a == [] || !IsSpace(a[0])
    ensures IsTrimmed(TrimEnd(a))
  {
    var r := TrimEnd(a);
    if r != [] {
      assert r[0] == a[0];
    }
  }

  /** `String.prototype.trim`. */
  function Trim(s: string): (r: string)
    ensures IsTrimmed(r)
    ensures PaddedBy(s, r)
  {
    TrimEndKeepsStart(TrimStart(s));
    CutsArePadding(s, TrimStart(s), TrimEnd(TrimStart(s)));
    TrimEnd(TrimStart(s))
  }

  /** The leading spaces of a space run followed by a non-space are exactly that run. */
  lemma LeadingSpacesOfPadded(w: string, core: string)
    requires AllSpace(w)
    requires core == [] || !IsSpace(core[0])
    ensures LeadingSpaces(w + core) == |w|
  {
    var s := w + core;
    var k := LeadingSpaces(s);
    assert forall i :: 0 <= i < |w| ==> s[i] == w[i];
    assert forall i :: 0 <= i < |core| ==> s[|w| + i] == core[i];
  }

  lemma TrailingSpacesOfPadded(core: string, w: string)
    requires AllSpace(w)
    requires core == [] || !IsSpace(core[|core| - 1])
    ensures TrailingSpaces(core + w) == |w|
  {
    var s := core + w;
    var k := TrailingSpaces(s);
    assert forall i :: 0 <= i < |core| ==> s[i] == core[i];
    assert forall i :: 0 <= i < |w| ==> s[|core| + i] == w[i];
  }

  lemma TrimStartPadded(w: string, core: string)
    requires AllSpace(w)
    requires core == [] || !IsSpace(core[0])
    ensures TrimStart(w + core) == core
  {
    LeadingSpacesOfPadded(w, core);
    assert (w + core)[|w|..] == core;
  }

  lemma TrimEndPadded(core: string, w: string)
    requires AllSpace(w)
    requires core == [] || !IsSpace(core[|core| - 1])
    ensures TrimEnd(core + w) == core
  {
    TrailingSpacesOfPadded(core, w);
    assert (core + w)[..|core|] == core;
  }

  /** Trim is characterised by its ensures: whatever surrounds a trimmed core
      with spaces trims back to exactly that core. */
  lemma TrimOfPadded(w1: string, core: string, w2: string)
    requires AllSpace(w1) && AllSpace(w2) && IsTrimmed(core)
    ensures Trim(w1 + core + w2) == core
  {
    if core == [] {
      assert w1 + core + w2 == w1 + w2;
      assert AllSpace(w1 + w2);
      TrimStartPadded(w1 + w2, []);
      assert w1 + w2 + [] == w1 + w2;
    } else {
      assert w1 + core + w2 == w1 + (core + w2);
      TrimStartPadded(w1, core + w2);
      TrimEndPadded(core, w2);
    }
  }

  /** Extra spaces around a string do not change its trimmed form. */
  lemma TrimIgnoresPadding(w1: string, s: string, w2: string)
    requires AllSpace(w1) && AllSpace(w2)
    ensures Trim(w1 + s + w2) == Trim(s)
  {
    var r := Trim(s);
    assert PaddedBy(s, r);
    var a, b :| s == a + r + b && AllSpace(a) && AllSpace(b);
    AllSpaceConcat(w1, a);
    AllSpaceConcat(b, w2);
    TrimOfPadded(w1 + a, r, b + w2);
    calc {
      w1 + s + w2;
      w1 + (a + r + b) + w2;
      { SeqRegroup(w1, a, r, b, w2); }
      (w1 + a) + r + (b + w2);
    }
  }

  lemma AllSpaceConcat(a: string, b: string)
    requires AllSpace(a) && AllSpace(b)
    ensures AllSpace(a + b)
  {
    forall i | 0 <= i < |a + b|
      ensures IsSpace((a + b)[i])
    {
      if i < |a| {
        assert (a + b)[i] == a[i];
      } else {
        assert (a + b)[i] == b[i - |a|];
      }
    }
  }

  lemma SeqRegroup(p: string, q: string, x: string, y: string, z: string)
    ensures p + (q + x + y) + z == (p + q) + x + (y + z)
  {
  }

  /** A string with no space at either end is its own trimmed form. */
  lemma TrimOfTrimmed(t: string)
    requires IsTrimmed(t)
    ensures Trim(t) == t
  {
    Unpadded(t);
    TrimOfPadded([], t, []);
  }

  lemma EmptyPrefix(t: string)
    ensures [] + t == t
  {
  }

  lemma Unpadded(t: string)
    ensures [] + t + [] == t
  {
  }

  lemma TrimIdempotent(s: string)
    ensures Trim(Trim(s)) == Trim(s)
  {
    TrimOfTrimmed(Trim(s));
  }

  /** `toLowerCase` on one character; only the ASCII letters are mapped. */
  function LowerChar(c: char): (d: char)
    ensures IsSpace(d) <==> IsSpace(c)
    ensures 'A' <= c <= 'Z' ==> d as int == c as int + 32
    ensures !('A' <= c <= 'Z') ==> d == c
    ensures !('A' <= d <= 'Z')
  {
    if 'A' <= c <= 'Z' then (c as int + 32) as char else c
  }

  /** `String.prototype.toLowerCase` (ASCII letters). */
  function ToLower(s: string): (r: string)
    ensures |r| == |s|
    ensures forall i :: 0 <= i < |s| ==> r[i] == LowerChar(s[i])
  {
    if s == [] then [] else [LowerChar(s[0])] + ToLower(s[1..])
  }

  lemma ToLowerIdempotent(s: string)
    ensures ToLower(ToLower(s)) == ToLower(s)
  {
  }

  lemma ToLowerConcat(a: string, b: string)
    ensures ToLower(a + b) == ToLower(a) + ToLower(b)
  {
  }

  /** A string without upper-case ASCII letters is its own lower-case form. */
  lemma ToLowerOfLower(t: string)
    requires forall i :: 0 <= i < |t| ==> !('A' <= t[i] <= 'Z')
    ensures ToLower(t) == t
  {
  }

  /** Lower-casing leaves a run of spaces as it is. */
  lemma ToLowerOfSpace(w: string)
    requires AllSpace(w)
    ensures ToLower(w) == w
  {
  }

  /** `s.startsWith(p)`. */
  predicate StartsWith(s: string, p: string) {
    |p| <= |s| && s[..|p|] == p
  }

  /** `t` occurs in `s` starting at index `i`. */
  ghost predicate OccursAt(s: string, t: string, i: int) {
    0 <= i && i + |t| <= |s| && s[i..i + |t|] == t
  }

  /** `s.indexOf(t, k)` for `k <= |s|`: the first occurrence at or after `k`. */
  function IndexFrom(s: string, t: string, k: nat): (r: Option<nat>)
    ensures r.Some? ==> k <= r.value && OccursAt(s, t, r.value)
    ensures r.Some? ==> forall j :: k <= j < r.value ==> !OccursAt(s, t, j)
    ensures r.None? ==> forall j :: k <= j ==> !OccursAt(s, t, j)
    decreases |s| - k
  {
    if k + |t| > |s| then None
    else if s[k..k + |t|] == t then Some(k)
    else IndexFrom(s, t, k + 1)
  }

  /** `s.indexOf(t)`, with `None` for JavaScript's -1. */
  function IndexOf(s: string, t: string): (r: Option<nat>)
    ensures r.Some? ==> OccursAt(s, t, r.value)
    ensures r.Some? ==> forall j :: 0 <= j < r.value ==> !OccursAt(s, t, j)
    ensures r.None? ==> forall j :: !OccursAt(s, t, j)
  {
    IndexFrom(s, t, 0)
  }

  /** `s.includes(t)`. */
  function Includes(s: string, t: string): (b: bool)
    ensures b <==> exists i :: OccursAt(s, t, i)
  {
    IndexOf(s, t).Some?
  }

  /** A string occurs in any string built around it. */
  lemma IncludesInfix(a: string, t: string, b: string)
    ensures Includes(a + t + b, t)
  {
    assert OccursAt(a + t + b, t, |a|);
  }

  /** `s.replace(pat, rep)` with a string pattern: only the FIRST occurrence
      is replaced, and a string without the pattern comes back unchanged.
      The replacement is spliced in literally, which is what JavaScript does
      for a replacement without `$` (`$&`, `$$` and the like are expanded). */
  function ReplaceFirst(s: string, pat: string, rep: string): (r: string)
    requires '$' !in rep
    ensures !Includes(s, pat) ==> r == s
    ensures Includes(s, pat) ==> exists i :: OccursAt(s, pat, i) && r == s[..i] + rep + s[i + |pat|..]
  {
    match IndexOf(s, pat)
    case None => s
    case Some(i) => s[..i] + rep + s[i + |pat|..]
  }

  /** Where `pat` first occurs at index `i`, `replace` splices `rep` in exactly there. */
  lemma ReplaceFirstAt(s: string, pat: string, rep: string, i: nat)
    requires '$' !in rep
    requires OccursAt(s, pat, i)
    requires forall j :: 0 <= j < i ==> !OccursAt(s, pat, j)
    ensures ReplaceFirst(s, pat, rep) == s[..i] + rep + s[i + |pat|..]
  {
    IndexOfFirst(s, pat, i);
  }

  /** `indexOf` finds the first occurrence. */
  lemma IndexOfFirst(s: string, t: string, i: nat)
    requires OccursAt(s, t, i)
    requires forall j :: 0 <= j < i ==> !OccursAt(s, t, j)
    ensures IndexOf(s, t) == Some(i)
  {
    var k := IndexOf(s, t);
    assert k.Some?;
    assert k.value == i;
  }

  /** `s.replace(/c/g, d)` for a single character `c`. */
  function ReplaceChar(s: string, c: char, d: char): (r: string)
    ensures |r| == |s|
    ensures forall i :: 0 <= i < |s| ==> r[i] == (if s[i] == c then d else s[i])
  {
    if s == [] then [] else [if s[0] == c then d else s[0]] + ReplaceChar(s[1..], c, d)
  }

  /** `s.replace(/[...]/g, '')`: every character of `cs` is removed and the
      others are kept in order. */
  function RemoveChars(s: string, cs: set<char>): (r: string)
    ensures |r| <= |s|
    ensures forall i :: 0 <= i < |r| ==> r[i] !in cs
    ensures forall c :: c !in cs ==> multiset(r)[c] == multiset(s)[c]
  {
    if s == [] then []
    else
      assert s == [s[0]] + s[1..];
      if s[0] in cs then RemoveChars(s[1..], cs)
      else [s[0]] + RemoveChars(s[1..], cs)
  }

  /** Removal works character by character: a kept character stays, a
      removed one disappears. */
  lemma RemoveCharsOfChar(c: char, cs: set<char>)
    ensures RemoveChars([c], cs) == if c in cs then [] else [c]
  {
    assert [c][1..] == [];
  }

  /** Removal distributes over concatenation, so the kept characters keep
      their order. */
  lemma {:induction false} RemoveCharsConcat(a: string, b: string, cs: set<char>)
    ensures RemoveChars(a + b, cs) == RemoveChars(a, cs) + RemoveChars(b, cs)
  {
    if a == [] {
      assert a + b == b;
    } else {
      assert (a + b)[0] == a[0];
      assert (a + b)[1..] == a[1..] + b;
      RemoveCharsConcat(a[1..], b, cs);
    }
  }

  /** A string that holds none of the removed characters is left intact. */
  lemma {:induction false} RemoveCharsNoop(s: string, cs: set<char>)
    requires forall i :: 0 <= i < |s| ==> s[i] !in cs
    ensures RemoveChars(s, cs) == s
  {
    if s != [] {
      RemoveCharsNoop(s[1..], cs);
      assert [s[0]] + s[1..] == s;
    }
  }

  predicate IsDigit(c: char) {
    '0' <= c <= '9'
  }

  function DigitChar(d: nat): (c: char)
    requires d < 10
    ensures IsDigit(c)
  {
    ('0' as int + d) as char
  }

  /** A number in a template literal (`${n}`) for a non-negative integer
      below 10^21: its decimal digits, without leading zeros. */
  function DecimalString(n: nat): (r: string)
    ensures |r| >= 1
    ensures forall i :: 0 <= i < |r| ==> IsDigit(r[i])
    ensures |r| > 1 ==> r[0] != '0'
  {
    if n < 10 then [DigitChar(n)] else DecimalString(n / 10) + [DigitChar(n % 10)]
  }

  /** The number a string of decimal digits denotes. */
  function DecimalValue(s: string): nat
    requires forall i :: 0 <= i < |s| ==> IsDigit(s[i])
  {
    if s == [] then 0
    else
      assert IsDigit(s[|s| - 1]);
      DecimalValue(s[..|s| - 1]) * 10 + (s[|s| - 1] as int - '0' as int)
  }

  /** Reading back the decimal rendering gives the number: distinct counts
      render distinctly. */
  lemma {:induction false} DecimalRoundTrip(n: nat)
    ensures DecimalValue(DecimalString(n)) == n
  {
    if n >= 10 {
      var s := DecimalString(n);
      assert s[..|s| - 1] == DecimalString(n / 10);
      DecimalRoundTrip(n / 10);
    }
  }

  lemma DecimalInjective(m: nat, n: nat)
    requires DecimalString(m) == DecimalString(n)
    ensures m == n
  {
    DecimalRoundTrip(m);
    DecimalRoundTrip(n);
  }
}
