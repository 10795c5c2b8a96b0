/**
 * The skill-name sanitiser of the installer: turns an arbitrary skill name or
 * slug into a single, safe directory-name component.
 *
 * The rewrite chain, each step applied to the previous result:
 *   1. drop every '/', '\', ':' and NUL;
 *   2. trim leading and trailing runs of whitespace and dots;
 *   3. strip leading dots (already gone after step 2, kept for fidelity);
 *   4. an empty result becomes "unnamed-skill";
 *   5. truncate to 255 UTF-16 code units, JavaScript's `length`.
 *
 * Names are strings of Unicode scalar values; a character above U+FFFF is
 * one surrogate pair, two code units. A cut that splits such a pair leaves a
 * lone high surrogate, which Node writes into a path as U+FFFD.
 */
module Sanitizer {
  import Paths

  const FALLBACK_NAME: string := "unnamed-skill"
  const MAX_NAME_LENGTH: nat := 255
  const REPLACEMENT_CHAR: char := '\U{FFFD}'

  /** Characters removed anywhere in the name. */
  predicate IsForbidden(c: char) {
    c == '\\' || c == '/' || c == ':' || c == '\0'
  }

  /** The characters matched by a JavaScript regular expression's `\s`. */
  predicate IsJsSpace(c: char) {
    c == '\t' || c == '\n' || c == '\U{000B}' || c == '\U{000C}' || c == '\r' || c == ' '
    || c == '\U{00A0}' || c == '\U{1680}' || ('\U{2000}' <= c <= '\U{200A}')
    || c == '\U{2028}' || c == '\U{2029}' || c == '\U{202F}' || c == '\U{205F}'
    || c == '\U{3000}' || c == '\U{FEFF}'
  }

  /** The class `[\s.]` trimmed at both ends in step 2. */
  predicate IsTrimmed(c: char) {
    IsJsSpace(c) || c == '.'
  }

  /** No character of `s` is one that step 1 removes. */
  predicate NoForbidden(s: string) {
    forall i :: 0 <= i < |s| ==> !IsForbidden(s[i])
  }

  /** Step 1: `replace(/[\\/:\0]/g, '')`. */
  function StripForbidden(s: string): (r: string)
    ensures NoForbidden(r)
    ensures |r| <= |s|
  {
    if s == [] then []
    else if IsForbidden(s[0]) then StripForbidden(s[1..])
    else [s[0]] + StripForbidden(s[1..])
  }

  /** The leading half of `replace(/^[\s.]+|[\s.]+$/g, '')`. */
  function TrimStart(s: string): (r: string)
    ensures |r| <= |s| && r == s[|s| - |r|..]
    ensures r != [] ==> !IsTrimmed(r[0])
  {
    if s != [] && IsTrimmed(s[0]) then TrimStart(s[1..]) else s
  }

  /** The trailing half of `replace(/^[\s.]+|[\s.]+$/g, '')`. */
  function TrimEnd(s: string): (r: string)
    ensures |r| <= |s| && r == s[..|r|]
    ensures r != [] ==> !IsTrimmed(r[|r| - 1])
  {
    if s != [] && IsTrimmed(s[|s| - 1]) then TrimEnd(s[..|s| - 1]) else s
  }

  /** Step 3: `replace(/^\.+/, '')`. */
  function StripLeadingDots(s: string): (r: string)
    ensures |r| <= |s| && r == s[|s| - |r|..]
    ensures r != [] ==> r[0] != '.'
  {
    if s != [] && s[0] == '.' then StripLeadingDots(s[1..]) else s
  }

  /** The UTF-16 code units of one character: two for a surrogate pair. */
  function Units(c: char): nat {
    if c > '\U{FFFF}' then 2 else 1
  }

  /** JavaScript's `length`: the number of UTF-16 code units. */
  function Utf16Len(s: string): nat {
    if s == [] then 0 else Units(s[0]) + Utf16Len(s[1..])
  }

  /** The longest prefix of `s` that fits in `n` code units. */
  function Utf16Prefix(s: string, n: nat): (r: string)
    ensures |r| <= |s| && r == s[..|r|]
    ensures Utf16Len(r) <= n
    ensures |r| < |s| ==> Utf16Len(r) + Units(s[|r|]) > n
  {
    if s == [] || Units(s[0]) > n then []
    else
      var rest := Utf16Prefix(s[1..], n - Units(s[0]));
      assert ([s[0]] + rest)[1..] == rest;
      [s[0]] + rest
  }

  /**
   * `substring(0, n)` as it reaches the file system: the whole characters
   * that fit, and U+FFFD for a high surrogate the cut leaves without its pair.
   */
  function Utf16Cut(s: string, n: nat): string {
    var p := Utf16Prefix(s, n);
    if |p| < |s| && Utf16Len(p) < n then p + [REPLACEMENT_CHAR] else p
  }

  /** Steps 1 to 4: the name before the length cut. */
  function Untruncated(name: string): string {
    var cleaned := StripLeadingDots(TrimEnd(TrimStart(StripForbidden(name))));
    if cleaned == [] then FALLBACK_NAME else cleaned
  }

  /** `sanitizeName`: steps 1 to 5. */
  function SanitizeName(name: string): string {
    var u := Untruncated(name);
    if Utf16Len(u) > MAX_NAME_LENGTH then Utf16Cut(u, MAX_NAME_LENGTH) else u
  }

  /** The properties a safe directory-name component must have. */
  predicate IsSafeName(r: string) {
    && 0 < |r| && Utf16Len(r) <= MAX_NAME_LENGTH
    && NoForbidden(r)
    && r[0] != '.'
    && !IsJsSpace(r[0])
  }

  lemma NoForbiddenSlice(s: string, a: nat, b: nat)
    requires NoForbidden(s) && a <= b <= |s|
    ensures NoForbidden(s[a..b])
  {
    forall i | 0 <= i < b - a ensures !IsForbidden(s[a..b][i]) {
      assert s[a..b][i] == s[a + i];
    }
  }

  /** Non-empty, nothing for step 1 to remove, nothing for step 2 to trim. */
  predicate CleanEnds(u: string) {
    && u != []
    && NoForbidden(u)
    && !IsTrimmed(u[0]) && !IsTrimmed(u[|u| - 1])
  }

  /** Steps 2 and 3 keep step 1's guarantee and leave both ends clean. */
  lemma TrimmedShape(s1: string)
    requires NoForbidden(s1)
    ensures var s3 := TrimEnd(TrimStart(s1));
      s3 == [] || CleanEnds(s3)
  {
    var s2 := TrimStart(s1);
    assert s2 == s1[|s1| - |s2|..|s1|];
    NoForbiddenSlice(s1, |s1| - |s2|, |s1|);
    var s3 := TrimEnd(s2);
    NoForbiddenSlice(s2, 0, |s3|);
    if s3 != [] {
      assert s3[0] == s2[0];
    }
  }

  /** Steps 1 to 4 already give every safety property except the length bound. */
  lemma UntruncatedShape(name: string)
    ensures CleanEnds(Untruncated(name))
  {
    var s3 := TrimEnd(TrimStart(StripForbidden(name)));
    TrimmedShape(StripForbidden(name));
    if s3 == [] {
      assert StripLeadingDots(s3) == [];
      FallbackClean();
    } else {
      LeadingDotsOfTrimmed(s3);
    }
  }

  /** Step 3 has nothing left to do after step 2. */
  lemma LeadingDotsOfTrimmed(s: string)
    requires CleanEnds(s)
    ensures StripLeadingDots(s) == s
  {
    assert s[0] != '.';
  }

  lemma FallbackClean()
    ensures CleanEnds(FALLBACK_NAME)
  {
    assert FALLBACK_NAME[0] == 'u' && FALLBACK_NAME[|FALLBACK_NAME| - 1] == 'l';
  }

  lemma {:induction false} Utf16LenConcat(a: string, b: string)
    ensures Utf16Len(a + b) == Utf16Len(a) + Utf16Len(b)
    decreases |a|
  {
    if a == [] {
      assert a + b == b;
    } else {
      assert (a + b)[0] == a[0] && (a + b)[1..] == a[1..] + b;
      Utf16LenConcat(a[1..], b);
    }
  }

  /** A cut name keeps its first character and step 1's guarantee, and fits in `n` code units. */
  lemma CutShape(u: string, n: nat)
    requires CleanEnds(u) && n >= 2
    ensures var r := Utf16Cut(u, n);
      r != [] && r[0] == u[0] && NoForbidden(r) && Utf16Len(r) <= n
  {
    var p := Utf16Prefix(u, n);
    assert p != [];
    NoForbiddenSlice(u, 0, |p|);
    if |p| < |u| && Utf16Len(p) < n {
      assert NoForbidden([REPLACEMENT_CHAR]);
      NoForbiddenAppend(p, [REPLACEMENT_CHAR]);
      Utf16LenConcat(p, [REPLACEMENT_CHAR]);
      assert Utf16Len([REPLACEMENT_CHAR]) == 1;
    }
  }

  /**
   * The sanitised name contains no path separator, colon or NUL, is never
   * empty, has at most 255 UTF-16 code units and does not start with a dot
   * or with whitespace.
   */
  lemma SanitizeNameIsSafe(name: string)
    ensures IsSafeName(SanitizeName(name))
  {
    var u := Untruncated(name);
    UntruncatedShape(name);
    if Utf16Len(u) > MAX_NAME_LENGTH {
      CutShape(u, MAX_NAME_LENGTH);
    }
  }

  /**
   * Hence it is never "." or "..", and joining it onto a directory stays
   * exactly one level below that directory.
   */
  lemma SanitizedJoinStaysBelow(dir: Paths.Path, name: string)
    ensures Paths.IsComponent(SanitizeName(name))
    ensures Paths.Join(dir, SanitizeName(name)) == dir + [SanitizeName(name)]
  {
    var r := SanitizeName(name);
    SanitizeNameIsSafe(name);
    assert r != "." && r != ".." by { assert r[0] != '.'; }
    assert '/' !in r by {
      forall i | 0 <= i < |r| ensures r[i] != '/' { assert !IsForbidden(r[i]); }
    }
    Paths.JoinComponent(dir, r);
  }

  lemma {:induction false} StripForbiddenId(s: string)
    requires NoForbidden(s)
    ensures StripForbidden(s) == s
    decreases |s|
  {
    if s != [] {
      NoForbiddenSlice(s, 1, |s|);
      StripForbiddenId(s[1..]);
      assert [s[0]] + s[1..] == s;
    }
  }

  /** A string already clean at both ends passes steps 1 to 4 unchanged. */
  lemma UntruncatedFixpoint(u: string)
    requires CleanEnds(u)
    ensures Untruncated(u) == u
  {
    StripForbiddenId(u);
    assert TrimStart(u) == u;
    assert TrimEnd(u) == u;
    LeadingDotsOfTrimmed(u);
  }

  /**
   * Idempotence holds whenever the length cut did not fire: the cut happens
   * after trimming, so only a cut can expose a trailing dot or space.
   */
  lemma SanitizeNameIdempotent(name: string)
    requires Utf16Len(Untruncated(name)) <= MAX_NAME_LENGTH
    ensures SanitizeName(SanitizeName(name)) == SanitizeName(name)
  {
    var u := Untruncated(name);
    UntruncatedShape(name);
    UntruncatedFixpoint(u);
  }

  /** `n` copies of `c`. */
  function Repeat(c: char, n: nat): (r: string)
    ensures |r| == n && forall i :: 0 <= i < n ==> r[i] == c
  {
    seq(n, _ => c)
  }

  lemma {:induction false} RepeatUnits(c: char, n: nat)
    ensures Utf16Len(Repeat(c, n)) == n * Units(c)
    decreases n
  {
    if n > 0 {
      assert Repeat(c, n)[1..] == Repeat(c, n - 1);
      RepeatUnits(c, n - 1);
    }
  }

  lemma RepeatClean(c: char, n: nat)
    requires n > 0 && !IsForbidden(c) && !IsTrimmed(c)
    ensures CleanEnds(Repeat(c, n))
  {
  }

  /** Appending characters that step 1 keeps keeps step 1's guarantee. */
  lemma NoForbiddenAppend(a: string, b: string)
    requires NoForbidden(a) && NoForbidden(b)
    ensures NoForbidden(a + b)
  {
    forall i | 0 <= i < |a + b| ensures !IsForbidden((a + b)[i]) {
      if i < |a| { assert (a + b)[i] == a[i]; } else { assert (a + b)[i] == b[i - |a|]; }
    }
  }

  /** A fitting first character is kept, and the rest is cut to what remains. */
  lemma Utf16PrefixCons(c: char, t: string, n: nat)
    requires Units(c) <= n
    ensures Utf16Prefix([c] + t, n) == [c] + Utf16Prefix(t, n - Units(c))
  {
    assert ([c] + t)[0] == c && ([c] + t)[1..] == t;
  }

  /** One step of `Utf16PrefixOf`: a character that fits is kept in front of the rest's prefix. */
  lemma Utf16PrefixOfStep(c: char, rest: string, y: string, n: nat)
    requires Units(c) <= n && Utf16Prefix(rest + y, n - Units(c)) == rest
    ensures Utf16Prefix(([c] + rest) + y, n) == [c] + rest
  {
    assert ([c] + rest) + y == [c] + (rest + y);
    Utf16PrefixCons(c, rest + y, n);
  }

  /** The longest fitting prefix of `x + y` is `x` when `x` fits and the next character does not. */
  lemma {:induction false} Utf16PrefixOf(x: string, y: string, n: nat)
    requires Utf16Len(x) <= n
    requires y != [] ==> Utf16Len(x) + Units(y[0]) > n
    ensures Utf16Prefix(x + y, n) == x
    decreases |x|
  {
    if x == [] {
      assert x + y == y;
    } else {
      var c, rest := x[0], x[1..];
      assert x == [c] + rest;
      Utf16PrefixOf(rest, y, n - Units(c));
      Utf16PrefixOfStep(c, rest, y, n);
    }
  }

  /** A clean name followed by a space and a letter is clean at both ends. */
  lemma CleanWithSuffix(a: string)
    requires CleanEnds(a)
    ensures CleanEnds(a + " b")
  {
    var name := a + " b";
    assert NoForbidden(" b");
    NoForbiddenAppend(a, " b");
    assert name[0] == a[0] && name[|name| - 1] == 'b';
  }

  /** The longest prefix of a 254-unit name plus " b" that fits in 255 code units ends in the space. */
  lemma SpaceLetterPrefix(a: string)
    requires Utf16Len(a) == 254
    ensures Utf16Len(a + " b") == 256 && Utf16Len(a + " ") == MAX_NAME_LENGTH
    ensures Utf16Prefix(a + " b", MAX_NAME_LENGTH) == a + " "
  {
    assert Utf16Len(" b") == 2 && Utf16Len(" ") == 1;
    Utf16LenConcat(a, " b");
    Utf16LenConcat(a, " ");
    assert a + " b" == (a + " ") + "b";
    Utf16PrefixOf(a + " ", "b", MAX_NAME_LENGTH);
  }

  /** The cut to 255 code units ends a clean 254-unit name plus " b" in the space. */
  lemma CutAt255(a: string)
    requires Untruncated(a + " b") == a + " b" && Utf16Len(a) == 254
    ensures SanitizeName(a + " b") == a + " "
  {
    SpaceLetterPrefix(a);
  }

  /** The first pass keeps such a name whole until the cut, which ends it in the space. */
  lemma FirstPassCut(a: string)
    requires CleanEnds(a) && Utf16Len(a) == 254
    ensures SanitizeName(a + " b") == a + " "
  {
    CleanWithSuffix(a);
    UntruncatedFixpoint(a + " b");
    CutAt255(a);
  }

  /** A trailing space is trimmed away. */
  lemma TrimEndSpace(a: string)
    ensures TrimEnd(a + " ") == TrimEnd(a)
  {
    var s := a + " ";
    assert IsTrimmed(s[|s| - 1]);
    assert s[..|s| - 1] == a;
  }

  /** Steps 1 and 2 of the second pass: nothing to remove, the trailing space trimmed. */
  lemma SecondPassSteps(a: string)
    requires CleanEnds(a)
    ensures TrimEnd(TrimStart(StripForbidden(a + " "))) == a
  {
    var once := a + " ";
    assert NoForbidden(" ");
    NoForbiddenAppend(a, " ");
    StripForbiddenId(once);
    assert once[0] == a[0];
    assert TrimStart(once) == once;
    TrimEndSpace(a);
    assert TrimEnd(a) == a;
  }

  /** The second pass trims that space. */
  lemma SecondPassTrims(a: string)
    requires CleanEnds(a) && Utf16Len(a) <= MAX_NAME_LENGTH
    ensures SanitizeName(a + " ") == a
  {
    SecondPassSteps(a);
    LeadingDotsOfTrimmed(a);
  }

  /**
   * Without that condition idempotence fails: a clean name of 254 code units,
   * a space and one more letter are cut to end in the space, which a second
   * pass trims.
   */
  lemma NotIdempotentWhenCut(a: string)
    requires CleanEnds(a) && Utf16Len(a) == 254
    ensures SanitizeName(SanitizeName(a + " b")) != SanitizeName(a + " b")
  {
    FirstPassCut(a);
    SecondPassTrims(a);
    assert |a| != |a + " "|;
  }

  lemma RepeatNotIdempotent(c: char, k: nat)
    requires k > 0 && k * Units(c) == 254 && !IsForbidden(c) && !IsTrimmed(c)
    ensures var name := Repeat(c, k) + " b";
      SanitizeName(SanitizeName(name)) != SanitizeName(name)
  {
    RepeatUnits(c, k);
    RepeatClean(c, k);
    NotIdempotentWhenCut(Repeat(c, k));
  }

  /** An instance: 254 letters, a space and a letter. */
  lemma SanitizeNameNotIdempotentWhenCut()
    ensures var name := Repeat('a', 254) + " b";
      SanitizeName(SanitizeName(name)) != SanitizeName(name)
  {
    RepeatNotIdempotent('a', 254);
  }

  /** An instance counted in code units: 127 characters that are each a surrogate pair. */
  lemma AstralNotIdempotentWhenCut()
    ensures var name := Repeat('\U{1F600}', 127) + " b";
      SanitizeName(SanitizeName(name)) != SanitizeName(name)
  {
    RepeatNotIdempotent('\U{1F600}', 127);
  }

  /** 127 surrogate pairs are the longest prefix of more of them that fits in 255 code units. */
  lemma RepeatPairPrefix(c: char, k: nat)
    requires Units(c) == 2 && k > 127
    ensures Utf16Prefix(Repeat(c, k), MAX_NAME_LENGTH) == Repeat(c, 127)
    ensures Utf16Len(Repeat(c, k)) > MAX_NAME_LENGTH && Utf16Len(Repeat(c, 127)) < MAX_NAME_LENGTH
  {
    var kept, rest := Repeat(c, 127), Repeat(c, k - 127);
    RepeatUnits(c, k);
    RepeatUnits(c, 127);
    assert Repeat(c, k) == kept + rest;
    assert rest[0] == c;
    Utf16PrefixOf(kept, rest, MAX_NAME_LENGTH);
  }

  /** More than 127 characters that are each a surrogate pair are cut inside the 128th pair. */
  lemma RepeatCutsPair(c: char, k: nat)
    requires Units(c) == 2 && k > 127 && !IsForbidden(c) && !IsTrimmed(c)
    ensures SanitizeName(Repeat(c, k)) == Repeat(c, 127) + [REPLACEMENT_CHAR]
  {
    RepeatClean(c, k);
    UntruncatedFixpoint(Repeat(c, k));
    RepeatPairPrefix(c, k);
  }

  /** A cut inside a surrogate pair: 200 such characters keep 127 and end in U+FFFD. */
  lemma SanitizeNameSplitsPair()
    ensures SanitizeName(Repeat('\U{1F600}', 200)) == Repeat('\U{1F600}', 127) + [REPLACEMENT_CHAR]
  {
    RepeatCutsPair('\U{1F600}', 200);
  }
}
