/** The pieces of Python's string behaviour the rule pipeline relies on:
    `str.strip()`, the `in` operator on strings, and `repr` of a string. */
module Text {

  /** Python's `str.isspace()` for a single character: the ASCII blanks
      (space, tab, line feed, vertical tab, form feed, carriage return), the
      information separators U+001C..U+001F and the Unicode space characters. */
  predicate IsSpace(c: char) {
    || c == ' '
    || ('\t' <= c <= '\r')
    || ('\U{1C}' <= c <= '\U{1F}')
    || c == '\U{85}' || c == '\U{A0}' || c == '\U{1680}'
    || ('\U{2000}' <= c <= '\U{200A}')
    || c == '\U{2028}' || c == '\U{2029}' || c == '\U{202F}'
    || c == '\U{205F}' || c == '\U{3000}'
  }

  /** Every character of `s` is in the class `blank`. */
  predicate AllIn(s: string, blank: char -> bool) {
    forall i | 0 <= i < |s| :: blank(s[i])
  }

  /** Neither end of `s` is in the class `blank`. */
  predicate TrimmedBy(s: string, blank: char -> bool) {
    s == [] || (!blank(s[0]) && !blank(s[|s| - 1]))
  }

  predicate AllSpace(s: string) {
    AllIn(s, IsSpace)
  }

  /** Neither end of `s` is whitespace. */
  predicate Trimmed(s: string) {
    TrimmedBy(s, IsSpace)
  }

  // `str.strip(chars)` over a character class `blank`. The proofs below hold
  // for every class; `Strip` takes the class of `str.isspace()`.

  /** One step of `TrimStart`: a blank first character, then what trimming
      the rest dropped, is what trimming the whole drops. */
  lemma DropStep(s: string, r: string, blank: char -> bool)
    requires s != [] && blank(s[0]) && |r| <= |s[1..]|
    requires r == s[1..][|s[1..]| - |r|..]
    requires AllIn(s[1..][..|s[1..]| - |r|], blank)
    ensures r == s[|s| - |r|..]
    ensures AllIn(s[..|s| - |r|], blank)
  {
    var t, u := s[1..][..|s[1..]| - |r|], s[..|s| - |r|];
    forall i | 1 <= i < |u|
      ensures blank(u[i])
    {
      assert u[i] == t[i - 1];
    }
  }

  /** Drops the leading characters of the class. */
  function TrimStart(s: string, blank: char -> bool): (r: string)
    ensures |r| <= |s| && r == s[|s| - |r|..]
    ensures AllIn(s[..|s| - |r|], blank)
    ensures r == [] || !blank(r[0])
  {
    if s != [] && blank(s[0]) then
      var r := TrimStart(s[1..], blank);
      DropStep(s, r, blank);
      r
    else s
  }

  /** Drops the trailing characters of the class. */
  function TrimEnd(s: string, blank: char -> bool): (r: string)
    ensures |r| <= |s| && r == s[..|r|]
    ensures AllIn(s[|r|..], blank)
    ensures r == [] || !blank(r[|r| - 1])
  {
    if s != [] && blank(s[|s| - 1]) then
      var r := TrimEnd(s[..|s| - 1], blank);
      assert s[|r|..] == s[..|s| - 1][|r|..] + [s[|s| - 1]];
      r
    else s
  }

  /** Drops the characters of the class from both ends. */
  function Trim(s: string, blank: char -> bool): (r: string)
    ensures TrimmedBy(r, blank)
    ensures |r| <= |s|
  {
    var e := TrimEnd(s, blank);
    var r := TrimStart(e, blank);
    assert r != [] ==> r[|r| - 1] == e[|e| - 1];
    r
  }

  /** Python's `str.strip()` with no argument. */
  function Strip(s: string): (r: string)
    ensures Trimmed(r)
    ensures |r| <= |s|
  {
    Trim(s, IsSpace)
  }

  lemma {:induction false} TrimStartOfPadded(a: string, rest: string, blank: char -> bool)
    requires AllIn(a, blank)
    requires rest == [] || !blank(rest[0])
    ensures TrimStart(a + rest, blank) == rest
    decreases |a|
  {
    if a == [] {
      assert a + rest == rest;
    } else {
      assert (a + rest)[0] == a[0];
      assert (a + rest)[1..] == a[1..] + rest;
      assert AllIn(a[1..], blank) by {
        forall j | 0 <= j < |a| - 1 ensures blank(a[1..][j]) {
          assert a[1..][j] == a[j + 1];
        }
      }
      TrimStartOfPadded(a[1..], rest, blank);
    }
  }

  lemma {:induction false} TrimEndOfPadded(rest: string, b: string, blank: char -> bool)
    requires AllIn(b, blank)
    requires rest == [] || !blank(rest[|rest| - 1])
    ensures TrimEnd(rest + b, blank) == rest
    decreases |b|
  {
    if b == [] {
      assert rest + b == rest;
    } else {
      var s := rest + b;
      assert s[|s| - 1] == b[|b| - 1];
      assert s[..|s| - 1] == rest + b[..|b| - 1];
      var front := b[..|b| - 1];
      assert AllIn(front, blank) by {
        forall j | 0 <= j < |front| ensures blank(front[j]) {
          assert front[j] == b[j];
        }
      }
      TrimEndOfPadded(rest, front, blank);
    }
  }

  /** Trimming is characterised by its result: whatever is left once padding
      of the class is removed from both ends. */
  lemma TrimOfPadded(a: string, r: string, b: string, blank: char -> bool)
    requires AllIn(a, blank) && AllIn(b, blank) && TrimmedBy(r, blank)
    ensures Trim(a + r + b, blank) == r
  {
    if r == [] {
      var ab := a + b;
      assert a + r + b == ab;
      assert AllIn(ab, blank) by {
        forall j | 0 <= j < |ab| ensures blank(ab[j]) {
          if j < |a| { assert ab[j] == a[j]; } else { assert ab[j] == b[j - |a|]; }
        }
      }
      TrimEndOfPadded([], ab, blank);
      assert [] + ab == ab;
    } else {
      assert a + r + b == (a + r) + b;
      TrimEndOfPadded(a + r, b, blank);
      assert (a + r)[|a + r| - 1] == r[|r| - 1];
      TrimStartOfPadded(a, r, blank);
    }
  }

  /** Trimming twice is trimming once. */
  lemma TrimIdempotent(s: string, blank: char -> bool)
    ensures Trim(Trim(s, blank), blank) == Trim(s, blank)
  {
    TrimOfTrimmed(Trim(s, blank), blank);
  }

  /** A string with neither end in the class is its own trim. */
  lemma TrimOfTrimmed(r: string, blank: char -> bool)
    requires TrimmedBy(r, blank)
    ensures Trim(r, blank) == r
  {
    assert TrimEnd(r, blank) == r;
    assert TrimStart(r, blank) == r;
  }

  /** Trimming yields the empty string exactly when every character is in
      the class. */
  lemma TrimEmptyIff(s: string, blank: char -> bool)
    ensures Trim(s, blank) == [] <==> AllIn(s, blank)
  {
    var e := TrimEnd(s, blank);
    if AllIn(s, blank) {
      assert s == [] + [] + s;
      TrimOfPadded([], [], s, blank);
    } else {
      var k :| 0 <= k < |s| && !blank(s[k]);
      assert e[k] == s[k];
      var r := TrimStart(e, blank);
    }
  }

  /** `strip` is characterised by its result: whatever text is left once
      whitespace-only padding is removed from both ends. */
  lemma StripOfPadded(a: string, r: string, b: string)
    requires AllSpace(a) && AllSpace(b) && Trimmed(r)
    ensures Strip(a + r + b) == r
  {
    TrimOfPadded(a, r, b, IsSpace);
  }

  /** Stripping twice is stripping once. */
  lemma StripIdempotent(s: string)
    ensures Strip(Strip(s)) == Strip(s)
  {
    TrimIdempotent(s, IsSpace);
  }

  /** Stripping yields the empty string exactly when the input is blank. */
  lemma StripEmptyIff(s: string)
    ensures Strip(s) == [] <==> AllSpace(s)
  {
    TrimEmptyIff(s, IsSpace);
  }

  predicate IsPrefix(p: string, s: string) {
    |p| <= |s| && s[..|p|] == p
  }

  /** Python's `needle in haystack` on strings. */
  predicate Contains(haystack: string, needle: string) {
    exists i | 0 <= i <= |haystack| :: IsPrefix(needle, haystack[i..])
  }

  /** `needle in haystack` holds exactly when the haystack is some text,
      then the needle, then some more text. */
  lemma ContainsIffSplits(haystack: string, needle: string)
    ensures Contains(haystack, needle)
        <==> exists i | 0 <= i <= |haystack| - |needle| :: haystack == haystack[..i] + needle + haystack[i + |needle|..]
  {
    if Contains(haystack, needle) {
      var i :| 0 <= i <= |haystack| && IsPrefix(needle, haystack[i..]);
      ContainedAt(haystack, needle, i);
    }
    if exists i | 0 <= i <= |haystack| - |needle| :: haystack == haystack[..i] + needle + haystack[i + |needle|..] {
      var i :| 0 <= i <= |haystack| - |needle| && haystack == haystack[..i] + needle + haystack[i + |needle|..];
      assert haystack[i..][..|needle|] == needle;
    }
  }

  lemma ContainedAt(haystack: string, needle: string, i: nat)
    requires i <= |haystack| && IsPrefix(needle, haystack[i..])
    ensures i <= |haystack| - |needle|
    ensures haystack == haystack[..i] + needle + haystack[i + |needle|..]
  {
    assert haystack[i..][..|needle|] == haystack[i..i + |needle|];
    assert haystack == haystack[..i] + haystack[i..i + |needle|] + haystack[i + |needle|..];
  }

  /** `repr` of a string, written with single quotes. */
  function Repr(s: string): string {
    "'" + s + "'"
  }

  /** Dropping the quotes recovers the string, so distinct strings have
      distinct reprs. */
  lemma ReprInjective(a: string, b: string)
    ensures Repr(a)[1..|a| + 1] == a
    ensures Repr(a) == Repr(b) <==> a == b
  {
    assert Repr(a)[1..|a| + 1] == a;
    assert Repr(b)[1..|b| + 1] == b;
  }

  /** Joins the strings with the separator between them, as `sep.join(parts)`. */
  function Join(sep: string, parts: seq<string>): string {
    if parts == [] then ""
    else if |parts| == 1 then parts[0]
    else parts[0] + sep + Join(sep, parts[1..])
  }

  /** A joined string starts with the first piece. */
  lemma JoinStarts(sep: string, parts: seq<string>)
    requires parts != []
    ensures |parts[0]| <= |Join(sep, parts)| && Join(sep, parts)[..|parts[0]|] == parts[0]
  {
  }
}
