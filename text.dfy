/** The string operations of the engine: Python's `str.strip()`,
    `str.lower()` and `str.replace(old, new)`, the column-name sanitising of
    `flatten_stats`, and Python's ordering of `str` values (by code point),
    which pandas uses to sort group keys and unstacked columns. */
module Text {

  // ---------------------------------------------------------------------
  // strip() and lower()
  // ---------------------------------------------------------------------

  /** Exactly the characters for which Python's `str.isspace()` holds. */
  predicate IsSpace(c: char) {
    || ('\t' <= c <= '\r')
    || ('\U{1c}' <= c <= ' ')
    || c == '\U{85}' || c == '\U{a0}' || c == '\U{1680}'
    || ('\U{2000}' <= c <= '\U{200a}')
    || c == '\U{2028}' || c == '\U{2029}' || c == '\U{202f}' || c == '\U{205f}'
    || c == '\U{3000}'
  }

  /** The upper-case letters whose lower-case form the model knows:
      ASCII A-Z and the Latin-1 letters U+00C0..U+00DE (U+00D7 is a sign). */
  predicate IsUpper(c: char) {
    ('A' <= c <= 'Z') || ('\U{c0}' <= c <= '\U{de}' && c != '\U{d7}')
  }

  function LowerChar(c: char): (r: char)
    ensures !IsUpper(r)
    ensures IsSpace(r) <==> IsSpace(c)
    ensures !IsUpper(c) ==> r == c
  {
    if IsUpper(c) then (c as int + 32) as char else c
  }

  /** Python's `str.lower()`: every character in its lower-case form. */
  function Lower(s: string): (r: string)
    ensures |r| == |s|
  {
    seq(|s|, i requires 0 <= i < |s| => LowerChar(s[i]))
  }

  /** No upper-case letter is left, whitespace stays whitespace in place,
      every other character is kept, and a string without upper-case letters
      is its own lower form. */
  lemma LowerSpec(s: string)
    ensures forall i :: 0 <= i < |s| ==> !IsUpper(Lower(s)[i])
    ensures forall i :: 0 <= i < |s| ==> (IsSpace(Lower(s)[i]) <==> IsSpace(s[i]))
    ensures forall i :: 0 <= i < |s| && !IsUpper(s[i]) ==> Lower(s)[i] == s[i]
    ensures (forall i :: 0 <= i < |s| ==> !IsUpper(s[i])) ==> Lower(s) == s
  {
  }

  /** Python's `str.lstrip()` with no argument: drop the leading whitespace,
      and only that. */
  function TrimStart(s: string): (r: string)
    ensures |r| <= |s| && r == s[|s| - |r|..]
    ensures forall k :: 0 <= k < |s| - |r| ==> IsSpace(s[k])
    ensures r == [] || !IsSpace(r[0])
  {
    if |s| > 0 && IsSpace(s[0]) then TrimStart(s[1..]) else s
  }

  /** Python's `str.rstrip()` with no argument: drop the trailing whitespace,
      and only that. */
  function TrimEnd(s: string): (r: string)
    ensures |r| <= |s| && r == s[..|r|]
    ensures forall k :: |r| <= k < |s| ==> IsSpace(s[k])
    ensures r == [] || !IsSpace(r[|r| - 1])
  {
    if |s| > 0 && IsSpace(s[|s| - 1]) then TrimEnd(s[..|s| - 1]) else s
  }

  /** Python's `str.strip()` with no argument: the slice of `s` between its leading and its trailing
      whitespace; it neither starts nor ends with whitespace. */
  function Strip(s: string): (r: string)
    ensures r == [] || (!IsSpace(r[0]) && !IsSpace(r[|r| - 1]))
  {
    TrimEnd(TrimStart(s))
  }

  /** What `strip()` keeps: a slice of `s` with only whitespace around it. */
  lemma StripSpec(s: string)
    ensures exists i :: StrippedAt(s, Strip(s), i)
  {
    var t := TrimStart(s);
    assert StrippedAt(s, Strip(s), |s| - |t|);
  }

  /** `r` is the slice of `s` starting at `i`, with only whitespace around it. */
  predicate StrippedAt(s: string, r: string, i: int) {
    && 0 <= i <= |s| - |r| && r == s[i..i + |r|]
    && (forall k :: 0 <= k < i ==> IsSpace(s[k]))
    && (forall k :: i + |r| <= k < |s| ==> IsSpace(s[k]))
  }

  /** The label normalisation of a zone request (line 248): surrounding
      whitespace removed, then lower-cased. */
  function Normalize(s: string): string {
    Lower(Strip(s))
  }

  lemma StripOfStripped(s: string)
    requires s == [] || (!IsSpace(s[0]) && !IsSpace(s[|s| - 1]))
    ensures Strip(s) == s
  {
  }

  /** A normalised label: no surrounding whitespace and no upper-case letter. */
  predicate IsNormal(s: string) {
    && (s == [] || (!IsSpace(s[0]) && !IsSpace(s[|s| - 1])))
    && forall i :: 0 <= i < |s| ==> !IsUpper(s[i])
  }

  /** Every normalised label is normal. */
  lemma NormalizeIsNormal(s: string)
    ensures IsNormal(Normalize(s))
  {
    LowerOfStripped(Strip(s));
  }

  /** Lowering a label without surrounding whitespace makes it normal. */
  lemma LowerOfStripped(t: string)
    requires t == [] || (!IsSpace(t[0]) && !IsSpace(t[|t| - 1]))
    ensures IsNormal(Lower(t))
  {
    var l := Lower(t);
    if l != [] {
      assert l[0] == LowerChar(t[0]);
      assert l[|l| - 1] == LowerChar(t[|t| - 1]);
    }
  }

  /** A normal label is its own normalised form. */
  lemma NormalIsFixed(s: string)
    requires IsNormal(s)
    ensures Normalize(s) == s
  {
    StripOfStripped(s);
    assert Lower(s) == s;
  }

  /** Normalising twice is normalising once: a normalised label is its own
      cache-key form. */
  lemma NormalizeIdempotent(s: string)
    ensures Normalize(Normalize(s)) == Normalize(s)
  {
    NormalizeIsNormal(s);
    NormalIsFixed(Normalize(s));
  }

  // ---------------------------------------------------------------------
  // replace()
  // ---------------------------------------------------------------------

  /** `s.replace(pat, rep)` for a non-empty `pat`: occurrences are replaced
      left to right, without overlap. */
  function ReplaceAll(s: string, pat: string, rep: string): string
    requires |pat| > 0
    decreases |s|
  {
    if |s| < |pat| then s
    else if s[..|pat|] == pat then rep + ReplaceAll(s[|pat|..], pat, rep)
    else [s[0]] + ReplaceAll(s[1..], pat, rep)
  }

  /** `pat` occurs somewhere in `s`. */
  ghost predicate Occurs(pat: string, s: string) {
    exists i :: OccursAt(pat, s, i)
  }

  /** `pat` occurs in `s` at position `i`. */
  predicate OccursAt(pat: string, s: string, i: int) {
    0 <= i && i + |pat| <= |s| && s[i..i + |pat|] == pat
  }

  /** Replacing a pattern that does not occur changes nothing. */
  lemma {:induction false} ReplaceAllAbsent(s: string, pat: string, rep: string)
    requires |pat| > 0
    requires !Occurs(pat, s)
    ensures ReplaceAll(s, pat, rep) == s
    decreases |s|
  {
    if |s| >= |pat| {
      assert !OccursAt(pat, s, 0);
      OccursInTail(pat, s);
      ReplaceAllAbsent(s[1..], pat, rep);
      assert s == [s[0]] + s[1..];
    }
  }

  /** An occurrence in the tail of `s` is an occurrence in `s`. */
  lemma OccursInTail(pat: string, s: string)
    requires |s| > 0
    ensures Occurs(pat, s[1..]) ==> Occurs(pat, s)
  {
    if Occurs(pat, s[1..]) {
      var i :| OccursAt(pat, s[1..], i);
      assert s[i + 1..i + 1 + |pat|] == s[1..][i..i + |pat|];
      assert OccursAt(pat, s, i + 1);
    }
  }

  /** A pattern at the very start is replaced there. */
  lemma ReplaceAllAtStart(pat: string, s: string, rep: string)
    requires |pat| > 0
    ensures ReplaceAll(pat + s, pat, rep) == rep + ReplaceAll(s, pat, rep)
  {
    assert (pat + s)[..|pat|] == pat;
    assert (pat + s)[|pat|..] == s;
  }

  /** Replacing one character: each character is handled on its own. */
  lemma {:induction false} ReplaceCharConcat(a: string, b: string, c: char, rep: string)
    ensures ReplaceAll(a + b, [c], rep) == ReplaceAll(a, [c], rep) + ReplaceAll(b, [c], rep)
  {
    if a == [] {
      assert a + b == b;
    } else {
      assert (a + b)[1..] == a[1..] + b;
      assert (a + b)[..1] == a[..1];
      ReplaceCharConcat(a[1..], b, c, rep);
    }
  }

  /** After replacing `c` by a string without `c`, no `c` is left; a character
      in neither the input nor the replacement never appears. */
  lemma {:induction false} ReplaceCharRemoves(s: string, c: char, rep: string, d: char)
    requires d !in rep
    requires d == c || d !in s
    ensures d !in ReplaceAll(s, [c], rep)
  {
    if s != [] {
      ReplaceCharRemoves(s[1..], c, rep, d);
    }
  }

  // ---------------------------------------------------------------------
  // Column-name sanitising of flatten_stats
  // ---------------------------------------------------------------------

  /** The column-name sanitising of `flatten_stats` (line 321): every space
      becomes `_`, then every opening and every closing parenthesis is
      removed, by three whole-string replaces. */
  function Sanitize(s: string): string {
    ReplaceAll(ReplaceAll(ReplaceAll(s, " ", "_"), "(", ""), ")", "")
  }

  /** A column name without spaces and parentheses. */
  predicate Clean(s: string) {
    ' ' !in s && '(' !in s && ')' !in s
  }

  /** What Sanitize does to one character. */
  function SanitizeChar(c: char): string {
    if c == ' ' then "_" else if c == '(' || c == ')' then "" else [c]
  }

  /** An independent, character-by-character definition of Sanitize. */
  function SanitizeEach(s: string): string {
    if s == [] then [] else SanitizeChar(s[0]) + SanitizeEach(s[1..])
  }

  /** The three chained replaces amount to sanitising every character on
      its own. */
  lemma {:induction false} SanitizeIsCharwise(s: string)
    ensures Sanitize(s) == SanitizeEach(s)
  {
    if s != [] {
      var h, t := s[..1], s[1..];
      assert s == h + t;
      ReplaceCharConcat(h, t, ' ', "_");
      var h1, t1 := ReplaceAll(h, " ", "_"), ReplaceAll(t, " ", "_");
      ReplaceCharConcat(h1, t1, '(', "");
      var h2, t2 := ReplaceAll(h1, "(", ""), ReplaceAll(t1, "(", "");
      ReplaceCharConcat(h2, t2, ')', "");
      SanitizeIsCharwise(t);
      assert Sanitize(t) == ReplaceAll(t2, ")", "");
      assert ReplaceAll(h2, ")", "") == SanitizeChar(s[0]);
    }
  }

  /** No sanitised name contains a space or a parenthesis. */
  lemma SanitizeIsClean(s: string)
    ensures Clean(Sanitize(s))
  {
    var a := ReplaceAll(s, " ", "_");
    ReplaceCharRemoves(s, ' ', "_", ' ');
    var b := ReplaceAll(a, "(", "");
    ReplaceCharRemoves(a, '(', "", ' ');
    ReplaceCharRemoves(a, '(', "", '(');
    ReplaceCharRemoves(b, ')', "", ' ');
    ReplaceCharRemoves(b, ')', "", '(');
    ReplaceCharRemoves(b, ')', "", ')');
  }

  /** A clean name is left as it is, so sanitising is idempotent. */
  lemma {:induction false} SanitizeClean(s: string)
    requires Clean(s)
    ensures Sanitize(s) == s
  {
    SanitizeIsCharwise(s);
    SanitizeEachClean(s);
  }

  lemma {:induction false} SanitizeEachClean(s: string)
    requires Clean(s)
    ensures SanitizeEach(s) == s
  {
    if s != [] {
      assert s[0] in s;
      assert forall c :: c in s[1..] ==> c in s;
      SanitizeEachClean(s[1..]);
    }
  }

  lemma SanitizeIdempotent(s: string)
    ensures Sanitize(Sanitize(s)) == Sanitize(s)
  {
    SanitizeIsClean(s);
    SanitizeClean(Sanitize(s));
  }

  /** Sanitising distributes over concatenation. */
  lemma SanitizeConcat(a: string, b: string)
    ensures Sanitize(a + b) == Sanitize(a) + Sanitize(b)
  {
    ReplaceCharConcat(a, b, ' ', "_");
    var a1, b1 := ReplaceAll(a, " ", "_"), ReplaceAll(b, " ", "_");
    ReplaceCharConcat(a1, b1, '(', "");
    var a2, b2 := ReplaceAll(a1, "(", ""), ReplaceAll(b1, "(", "");
    ReplaceCharConcat(a2, b2, ')', "");
  }

  /** The inner key of flatten_stats: re-sanitising the already sanitised
      outer name joined to the inner key sanitises the inner key alone. */
  lemma SanitizeJoin(outer: string, inner: string)
    ensures Sanitize(Sanitize(outer) + "_" + inner) == Sanitize(outer) + "_" + Sanitize(inner)
  {
    SanitizeConcat(Sanitize(outer) + "_", inner);
    SanitizeConcat(Sanitize(outer), "_");
    SanitizeIdempotent(outer);
    SanitizeClean("_");
  }

  // ---------------------------------------------------------------------
  // Python's ordering of str
  // ---------------------------------------------------------------------

  /** `a < b` on Python strings: lexicographic by code point, a proper prefix
      coming first. */
  predicate StrLess(a: string, b: string)
    decreases |a|
  {
    if a == [] then b != []
    else if b == [] then false
    else if a[0] == b[0] then StrLess(a[1..], b[1..])
    else a[0] < b[0]
  }

  lemma {:induction false} StrLessIrreflexive(a: string)
    ensures !StrLess(a, a)
  {
    if a != [] {
      StrLessIrreflexive(a[1..]);
    }
  }

  lemma {:induction false} StrLessTransitive(a: string, b: string, c: string)
    requires StrLess(a, b) && StrLess(b, c)
    ensures StrLess(a, c)
    decreases |a|
  {
    if a != [] && a[0] == b[0] && b[0] == c[0] {
      StrLessTransitive(a[1..], b[1..], c[1..]);
    }
  }

  lemma {:induction false} StrLessTotal(a: string, b: string)
    requires a != b
    ensures StrLess(a, b) || StrLess(b, a)
    decreases |a|
  {
    if a != [] && b != [] && a[0] == b[0] {
      assert a == [a[0]] + a[1..] && b == [b[0]] + b[1..];
      StrLessTotal(a[1..], b[1..]);
    }
  }
}
