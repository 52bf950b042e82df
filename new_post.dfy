/**
 * The "Create New Post" form (app/posts/new/page.tsx): the section and tag
 * tables, the slug generator and the form-state handlers.
 *
 * `generateSlug` lower-cases the title, trims white space from both ends,
 * deletes every character that is not a word character, white space or a
 * hyphen, turns each run of white space, underscores and hyphens into one
 * hyphen, drops hyphens at either end, and appends a hyphen and the last four
 * digits of the clock reading. Each step is one function below; the clock
 * reading is a parameter.
 */
module NewPost {
  import opened Wrappers

  // ---------------------------------------------------------------------------
  // Character classes of the JavaScript regular expressions
  // ---------------------------------------------------------------------------

  predicate IsAsciiUpper(c: char) { 'A' <= c <= 'Z' }

  predicate IsAsciiLower(c: char) { 'a' <= c <= 'z' }

  predicate IsDigit(c: char) { '0' <= c <= '9' }

  /** `\w`: ASCII letters, digits and `_`. */
  predicate IsWordChar(c: char) { IsAsciiLower(c) || IsAsciiUpper(c) || IsDigit(c) || c == '_' }

  /**
   * `\s`, which is also the set `trim` removes: the ECMAScript white space
   * and line terminator code points.
   */
  predicate IsSpace(c: char)
  {
    c == '\t' || c == '\n' || c == '\U{000B}' || c == '\U{000C}' || c == '\r' || c == ' '
    || c == '\U{00A0}' || c == '\U{1680}' || ('\U{2000}' <= c <= '\U{200A}')
    || c == '\U{2028}' || c == '\U{2029}' || c == '\U{202F}' || c == '\U{205F}'
    || c == '\U{3000}' || c == '\U{FEFF}'
  }

  predicate IsHyphen(c: char) { c == '-' }

  /** The characters `[^\w\s-]` does not remove. */
  predicate IsKept(c: char) { IsWordChar(c) || IsSpace(c) || c == '-' }

  /** The characters of `[\s_-]`, whose runs become one hyphen. */
  predicate IsSeparator(c: char) { IsSpace(c) || c == '_' || c == '-' }

  /** The characters a slug base is made of. */
  predicate IsSlugChar(c: char) { IsAsciiLower(c) || IsDigit(c) || c == '-' }

  /** No two hyphens are adjacent. */
  ghost predicate NoDoubleHyphen(s: string)
  {
    forall i :: 0 <= i < |s| - 1 ==> !(s[i] == '-' && s[i + 1] == '-')
  }

  // ---------------------------------------------------------------------------
  // The steps of `generateSlug`
  // ---------------------------------------------------------------------------

  /**
   * `toLowerCase` of one character. ASCII capitals map to their small letters;
   * U+0130 maps to "i" followed by U+0307 and the Kelvin sign U+212A to "k".
   * Every other character keeps itself here: its true lower case contains no
   * character that the later steps keep, so the slug is the same.
   */
  function LowerChar(c: char): (r: string)
    ensures forall i :: 0 <= i < |r| ==> !IsAsciiUpper(r[i])
    ensures IsAsciiUpper(c) ==> r == [(c as int + 32) as char] && IsAsciiLower(r[0])
    ensures c == '\U{0130}' ==> r == ['i', '\U{0307}']
    ensures c == '\U{212A}' ==> r == ['k']
    ensures !IsAsciiUpper(c) && c != '\U{0130}' && c != '\U{212A}' ==> r == [c]
  {
    if IsAsciiUpper(c) then [(c as int + 32) as char]
    else if c == '\U{0130}' then ['i', '\U{0307}']
    else if c == '\U{212A}' then ['k']
    else [c]
  }

  /** No ASCII capital letter occurs. */
  predicate NoUpper(s: string)
  {
    forall i :: 0 <= i < |s| ==> !IsAsciiUpper(s[i])
  }

  /** Every character is kept by the removal step and is not an ASCII capital. */
  predicate KeptLower(s: string)
  {
    forall i :: 0 <= i < |s| ==> IsKept(s[i]) && !IsAsciiUpper(s[i])
  }

  /** Every character is a slug character. */
  predicate SlugChars(s: string)
  {
    forall i :: 0 <= i < |s| ==> IsSlugChar(s[i])
  }

  /** `toLowerCase`, one character at a time. */
  function Lower(s: string): (r: string)
    ensures NoUpper(r)
    ensures |s| == 1 ==> r == LowerChar(s[0])
    ensures s == [] ==> r == []
  {
    if s == [] then [] else LowerChar(s[0]) + Lower(s[1..])
  }

  /** The end of the run of characters satisfying `p` that starts at `from`. */
  function RunEnd(s: string, p: char -> bool, from: nat): (k: nat)
    requires from <= |s|
    ensures from <= k <= |s|
    ensures forall i :: from <= i < k ==> p(s[i])
    ensures k == |s| || !p(s[k])
    decreases |s| - from
  {
    if from < |s| && p(s[from]) then RunEnd(s, p, from + 1) else from
  }

  /** The start of the run of characters satisfying `p` that ends just before `to`. */
  function RunStart(s: string, p: char -> bool, to: nat): (k: nat)
    requires to <= |s|
    ensures k <= to
    ensures forall i :: k <= i < to ==> p(s[i])
    ensures k == 0 || !p(s[k - 1])
  {
    if to > 0 && p(s[to - 1]) then RunStart(s, p, to - 1) else to
  }

  /** Removes the longest prefix whose characters all satisfy `p`. */
  function DropLeading(s: string, p: char -> bool): string
  {
    s[RunEnd(s, p, 0)..]
  }

  /** Removes the longest suffix whose characters all satisfy `p`. */
  function DropTrailing(s: string, p: char -> bool): string
  {
    s[..RunStart(s, p, |s|)]
  }

  /** `trim`: white space removed from both ends. */
  function Trim(s: string): (r: string)
    ensures r == [] || (!IsSpace(r[0]) && !IsSpace(r[|r| - 1]))
  {
    DropTrailing(DropLeading(s, IsSpace), IsSpace)
  }

  /** `replace(/[^\w\s-]/g, "")`: the characters that are not kept are removed, the others keep their order. */
  function RemoveUnkept(s: string): (r: string)
    ensures |r| <= |s|
    ensures forall i :: 0 <= i < |r| ==> IsKept(r[i])
    ensures NoUpper(s) ==> KeptLower(r)
    ensures forall c :: c in r <==> c in s && IsKept(c)
    ensures |s| == 1 ==> r == (if IsKept(s[0]) then s else [])
  {
    if s == [] then []
    else
      assert s == [s[0]] + s[1..];
      (if IsKept(s[0]) then [s[0]] else []) + RemoveUnkept(s[1..])
  }

  /** `replace(/[\s_-]+/g, "-")`: every maximal run of separators becomes one hyphen. */
  function CollapseSeparators(s: string): (r: string)
    ensures KeptLower(s) ==> SlugChars(r)
    ensures NoDoubleHyphen(r)
    ensures s != [] && !IsSeparator(s[0]) ==> r != [] && r[0] == s[0]
    ensures s != [] && IsSeparator(s[0]) ==> r != [] && r[0] == '-'
    decreases |s|
  {
    if s == [] then []
    else if IsSeparator(s[0]) then
      var rest := DropLeading(s[1..], IsSeparator);
      ['-'] + CollapseSeparators(rest)
    else
      [s[0]] + CollapseSeparators(s[1..])
  }

  /** `replace(/^-+|-+$/g, "")`: the leading and the trailing run of hyphens are removed. */
  function StripHyphens(s: string): (r: string)
    ensures r == [] || (r[0] != '-' && r[|r| - 1] != '-')
  {
    DropTrailing(DropLeading(s, IsHyphen), IsHyphen)
  }

  /** Everything of `generateSlug` before the timestamp is appended. */
  function SlugBase(title: string): string
  {
    StripHyphens(CollapseSeparators(RemoveUnkept(Trim(Lower(title)))))
  }

  // ---------------------------------------------------------------------------
  // What each step computes
  // ---------------------------------------------------------------------------

  /** Lower-casing works character by character: it distributes over concatenation. */
  lemma {:induction false} LowerAppend(s: string, t: string)
    ensures Lower(s + t) == Lower(s) + Lower(t)
  {
    if s == [] {
      assert s + t == t;
    } else {
      assert (s + t)[1..] == s[1..] + t;
      LowerAppend(s[1..], t);
    }
  }

  /** The removal step works character by character: it distributes over concatenation. */
  lemma {:induction false} RemoveUnkeptAppend(s: string, t: string)
    ensures RemoveUnkept(s + t) == RemoveUnkept(s) + RemoveUnkept(t)
  {
    if s == [] {
      assert s + t == t;
    } else {
      assert (s + t)[1..] == s[1..] + t;
      RemoveUnkeptAppend(s[1..], t);
    }
  }

  /** A run of `p` from `from` that stops at `k` is the run `RunEnd` finds. */
  lemma {:induction false} RunEndIs(s: string, p: char -> bool, from: nat, k: nat)
    requires from <= k <= |s|
    requires forall i :: from <= i < k ==> p(s[i])
    requires k == |s| || !p(s[k])
    ensures RunEnd(s, p, from) == k
    decreases k - from
  {
    if from < k {
      RunEndIs(s, p, from + 1, k);
    }
  }

  /**
   * Dropping the runs of `p` at both ends keeps one contiguous part of the
   * input; everything before and after that part satisfies `p`.
   */
  lemma DropBothIsInfix(s: string, p: char -> bool)
    ensures exists a: nat, b: nat :: a <= b <= |s| && DropTrailing(DropLeading(s, p), p) == s[a..b]
              && (forall i :: 0 <= i < a ==> p(s[i])) && (forall i :: b <= i < |s| ==> p(s[i]))
  {
    var a := RunEnd(s, p, 0);
    var front := s[a..];
    var k := RunStart(front, p, |front|);
    assert DropTrailing(DropLeading(s, p), p) == s[a..a + k];
    forall i | a + k <= i < |s| ensures p(s[i]) {
      assert front[i - a] == s[i];
    }
  }

  /**
   * `trim` removes white space at the two ends and nothing else: the result is
   * a contiguous part of the input with only white space around it (and by the
   * contract of `Trim`, not starting or ending with white space).
   */
  lemma TrimRemovesOnlyEdgeSpace(s: string)
    ensures exists a: nat, b: nat :: a <= b <= |s| && Trim(s) == s[a..b]
              && (forall i :: 0 <= i < a ==> IsSpace(s[i])) && (forall i :: b <= i < |s| ==> IsSpace(s[i]))
  {
    DropBothIsInfix(s, IsSpace);
  }

  /** Stripping removes the hyphen runs at the two ends and nothing else. */
  lemma StripRemovesOnlyEdgeHyphens(s: string)
    ensures exists a: nat, b: nat :: a <= b <= |s| && StripHyphens(s) == s[a..b]
              && (forall i :: 0 <= i < a ==> s[i] == '-') && (forall i :: b <= i < |s| ==> s[i] == '-')
  {
    DropBothIsInfix(s, IsHyphen);
  }

  /** The collapsing step copies a character that is not a separator. */
  lemma CollapseKeepsOther(c: char, t: string)
    requires !IsSeparator(c)
    ensures CollapseSeparators([c] + t) == [c] + CollapseSeparators(t)
  {
    assert ([c] + t)[1..] == t;
  }

  /**
   * A whole run of separators (white space, `_` and `-`, in any mix and of any
   * length) becomes one hyphen, wherever it occurs.
   */
  lemma CollapseRun(w: string, t: string)
    requires w != [] && forall i :: 0 <= i < |w| ==> IsSeparator(w[i])
    requires t == [] || !IsSeparator(t[0])
    ensures CollapseSeparators(w + t) == ['-'] + CollapseSeparators(t)
  {
    var tail := (w + t)[1..];
    assert tail == w[1..] + t;
    forall i | 0 <= i < |w| - 1 ensures IsSeparator(tail[i]) {
      assert tail[i] == w[i + 1];
    }
    if t != [] {
      assert tail[|w| - 1] == t[0];
    }
    RunEndIs(tail, IsSeparator, 0, |w| - 1);
    assert tail[|w| - 1..] == t;
  }

  /** Lower-casing a sample title, one character at a time. */
  lemma LowerExample()
    ensures Lower("Hi U!") == "hi u!"
  {
    assert "Hi U!" == "H" + "i U!";
    LowerAppend("H", "i U!");
    assert "i U!" == "i" + " U!";
    LowerAppend("i", " U!");
    assert " U!" == " " + "U!";
    LowerAppend(" ", "U!");
    assert "U!" == "U" + "!";
    LowerAppend("U", "!");
  }

  /** A character that is not kept, after characters that all are, is the only one deleted. */
  lemma RemoveUnkeptLast(s: string, c: char)
    requires forall i :: 0 <= i < |s| ==> IsKept(s[i])
    requires !IsKept(c)
    ensures RemoveUnkept(s + [c]) == s
  {
    RemoveUnkeptAppend(s, [c]);
    RemoveUnkeptOfKept(s);
  }

  /** Deleting the punctuation of a sample title. */
  lemma RemoveUnkeptExample()
    ensures RemoveUnkept("hi u!") == "hi u"
  {
    assert "hi u!" == "hi u" + ['!'];
    RemoveUnkeptLast("hi u", '!');
  }

  /** Trimming a sample string with no white space at its ends. */
  lemma TrimExample()
    ensures Trim("hi u!") == "hi u!"
  {
    DropBothNone("hi u!", IsSpace);
  }

  /** A single space between two letters becomes one hyphen. */
  lemma CollapseExample()
    ensures CollapseSeparators("hi u") == "hi-u"
  {
    CollapseKeepsOther('h', "i u");
    CollapseKeepsOther('i', " u");
    CollapseRun(" ", "u");
    CollapseKeepsOther('u', "");
  }

  /** A sample string with no hyphen at its ends keeps its hyphens. */
  lemma StripExample()
    ensures StripHyphens("hi-u") == "hi-u"
  {
    DropBothNone("hi-u", IsHyphen);
  }

  /** A sample title worked through every step of the slug base. */
  lemma SlugBaseExample()
    ensures SlugBase("Hi U!") == "hi-u"
  {
    LowerExample();
    TrimExample();
    RemoveUnkeptExample();
    CollapseExample();
    StripExample();
  }

  /** The suffix at a clock reading of today's size. */
  lemma TimestampExample(now: nat)
    requires now == 1700000004567
    ensures LastFour(DecimalString(now)) == "4567"
  {
    assert now / 10 / 10 / 10 % 10 == 4 && now / 10 / 10 % 10 == 5 && now / 10 % 10 == 6 && now % 10 == 7;
    assert [DigitChar(4), DigitChar(5), DigitChar(6), DigitChar(7)] == "4567";
    TimestampDigits(now);
  }

  /** The sample title at that clock reading. */
  lemma GenerateSlugExample(now: nat)
    requires now == 1700000004567
    ensures GenerateSlug("Hi U!", now) == "hi-u-4567"
  {
    SlugBaseExample();
    TimestampExample(now);
    JoinExample(SlugBase("Hi U!"), LastFour(DecimalString(now)));
  }

  /** Joining the sample slug base and suffix. */
  lemma JoinExample(base: string, suffix: string)
    requires base == "hi-u" && suffix == "4567"
    ensures base + "-" + suffix == "hi-u-4567"
  {
  }

  /** A suffix keeps the three character-level properties. */
  lemma SuffixKeeps(s: string, k: nat)
    requires k <= |s|
    ensures NoUpper(s) ==> NoUpper(s[k..])
    ensures SlugChars(s) ==> SlugChars(s[k..])
    ensures NoDoubleHyphen(s) ==> NoDoubleHyphen(s[k..])
  {
  }

  /** A prefix keeps the three character-level properties. */
  lemma PrefixKeeps(s: string, k: nat)
    requires k <= |s|
    ensures NoUpper(s) ==> NoUpper(s[..k])
    ensures SlugChars(s) ==> SlugChars(s[..k])
    ensures NoDoubleHyphen(s) ==> NoDoubleHyphen(s[..k])
  {
  }

  /** Trimming keeps the absence of capitals. */
  lemma TrimKeepsNoUpper(s: string)
    requires NoUpper(s)
    ensures NoUpper(Trim(s))
  {
    var front := DropLeading(s, IsSpace);
    SuffixKeeps(s, RunEnd(s, IsSpace, 0));
    PrefixKeeps(front, RunStart(front, IsSpace, |front|));
  }

  /** Stripping hyphens keeps slug characters and the absence of double hyphens. */
  lemma StripKeepsSlug(s: string)
    requires SlugChars(s) && NoDoubleHyphen(s)
    ensures SlugChars(StripHyphens(s)) && NoDoubleHyphen(StripHyphens(s))
  {
    var front := DropLeading(s, IsHyphen);
    SuffixKeeps(s, RunEnd(s, IsHyphen, 0));
    PrefixKeeps(front, RunStart(front, IsHyphen, |front|));
  }

  /**
   * A slug base holds only small ASCII letters, digits and hyphens, never two
   * hyphens in a row, and neither starts nor ends with a hyphen.
   */
  lemma SlugBaseWellFormed(title: string)
    ensures var b := SlugBase(title);
            SlugChars(b) && NoDoubleHyphen(b) && (b == [] || (b[0] != '-' && b[|b| - 1] != '-'))
  {
    var trimmed := Trim(Lower(title));
    TrimKeepsNoUpper(Lower(title));
    StripKeepsSlug(CollapseSeparators(RemoveUnkept(trimmed)));
  }

  // ---------------------------------------------------------------------------
  // The timestamp suffix: `Date.now().toString().slice(-4)`
  // ---------------------------------------------------------------------------

  function DigitChar(d: nat): (c: char)
    requires d < 10
    ensures IsDigit(c)
  {
    ('0' as int + d) as char
  }

  function DigitValue(c: char): (d: nat)
    requires IsDigit(c)
    ensures d < 10
  {
    c as int - '0' as int
  }

  predicate Digits(s: string)
  {
    forall i :: 0 <= i < |s| ==> IsDigit(s[i])
  }

  /** `Number.prototype.toString()` of a non-negative integer: its decimal digits. */
  function DecimalString(n: nat): (r: string)
    ensures |r| >= 1 && Digits(r)
    ensures r[0] == '0' ==> n == 0
  {
    if n < 10 then [DigitChar(n)] else DecimalString(n / 10) + [DigitChar(n % 10)]
  }

  /** The number a string of decimal digits denotes. */
  function DecimalValue(s: string): nat
    requires Digits(s)
  {
    if s == [] then 0 else DecimalValue(s[..|s| - 1]) * 10 + DigitValue(s[|s| - 1])
  }

  /** `slice(-4)`: the last four characters, or all of a shorter string. */
  function LastFour(s: string): (r: string)
    ensures |r| == if |s| < 4 then |s| else 4
    ensures s == s[..|s| - |r|] + r
  {
    if |s| <= 4 then s else s[|s| - 4..]
  }

  /** `generateSlug(title)` at the clock reading `now` (milliseconds since the epoch). */
  function GenerateSlug(title: string, now: nat): string
  {
    SlugBase(title) + "-" + LastFour(DecimalString(now))
  }

  // ---------------------------------------------------------------------------
  // Properties of the slug
  // ---------------------------------------------------------------------------

  /** Reading back the decimal string gives the number. */
  lemma {:induction false} DecimalRoundTrip(n: nat)
    ensures DecimalValue(DecimalString(n)) == n
  {
    if n >= 10 {
      DecimalRoundTrip(n / 10);
      var s := DecimalString(n);
      assert s[..|s| - 1] == DecimalString(n / 10);
    }
  }

  /** Chars that are already slug characters are their own lower case. */
  lemma {:induction false} LowerOfSlugChars(s: string)
    requires SlugChars(s)
    ensures Lower(s) == s
  {
    if s != [] {
      LowerOfSlugChars(s[1..]);
      assert s == [s[0]] + s[1..];
    }
  }

  /** Every kept character survives `replace(/[^\w\s-]/g, "")`. */
  lemma {:induction false} RemoveUnkeptOfKept(s: string)
    requires forall i :: 0 <= i < |s| ==> IsKept(s[i])
    ensures RemoveUnkept(s) == s
  {
    if s != [] {
      RemoveUnkeptOfKept(s[1..]);
      assert s == [s[0]] + s[1..];
    }
  }

  /** A string of slug characters without double hyphens has nothing left to collapse. */
  lemma {:induction false} CollapseOfSlug(s: string)
    requires SlugChars(s)
    requires NoDoubleHyphen(s)
    ensures CollapseSeparators(s) == s
    decreases |s|
  {
    if s != [] {
      var rest := s[1..];
      assert SlugChars(rest) && NoDoubleHyphen(rest);
      CollapseOfSlug(rest);
      if IsSeparator(s[0]) {
        assert s[0] == '-';
        assert rest == [] || (rest[0] != '-' && IsSlugChar(rest[0]));
        assert DropLeading(rest, IsSeparator) == rest;
        assert CollapseSeparators(s) == ['-'] + rest;
      } else {
        assert CollapseSeparators(s) == [s[0]] + rest;
      }
      assert s == [s[0]] + rest;
    }
  }

  /** Dropping from both ends does nothing when neither end satisfies `p`. */
  lemma DropBothNone(s: string, p: char -> bool)
    requires s == [] || (!p(s[0]) && !p(s[|s| - 1]))
    ensures DropTrailing(DropLeading(s, p), p) == s
  {
    assert RunEnd(s, p, 0) == 0;
    assert s[0..] == s;
    assert RunStart(s, p, |s|) == |s|;
    assert s[..|s|] == s;
  }

  /** A well-formed slug base is its own normal form. */
  lemma SlugBaseOfSlug(b: string)
    requires SlugChars(b) && NoDoubleHyphen(b)
    requires b == [] || (b[0] != '-' && b[|b| - 1] != '-')
    ensures SlugBase(b) == b
  {
    LowerOfSlugChars(b);
    assert b == [] || (!IsSpace(b[0]) && !IsSpace(b[|b| - 1]));
    DropBothNone(b, IsSpace);
    RemoveUnkeptOfKept(b);
    CollapseOfSlug(b);
    DropBothNone(b, IsHyphen);
  }

  /** Normalising a slug base again changes nothing. */
  lemma SlugBaseIdempotent(title: string)
    ensures SlugBase(SlugBase(title)) == SlugBase(title)
  {
    SlugBaseWellFormed(title);
    SlugBaseOfSlug(SlugBase(title));
  }

  /** At any clock reading of at least 1000 the suffix is four digits denoting `now % 10000`. */
  lemma TimestampSuffix(now: nat)
    requires now >= 1000
    ensures var suffix := LastFour(DecimalString(now));
            |suffix| == 4 && Digits(suffix) && DecimalValue(suffix) == now % 10000
  {
    DecimalLength(now);
    DecimalRoundTrip(now);
    LastFourValue(DecimalString(now));
  }

  /** The last digit of a decimal string is the value's last digit. */
  lemma DecimalLastDigit(n: nat)
    ensures var s := DecimalString(n); s[|s| - 1] == DigitChar(n % 10)
  {
  }

  /** Peeling the last three digits off a decimal string. */
  lemma DecimalLastThree(n: nat)
    requires n >= 1000
    ensures DecimalString(n) == DecimalString(n / 10 / 10 / 10)
              + [DigitChar(n / 10 / 10 % 10), DigitChar(n / 10 % 10), DigitChar(n % 10)]
  {
    var n1 := n / 10;
    var n2 := n1 / 10;
    assert DecimalString(n) == DecimalString(n1) + [DigitChar(n % 10)];
    assert DecimalString(n1) == DecimalString(n2) + [DigitChar(n1 % 10)];
    assert DecimalString(n2) == DecimalString(n2 / 10) + [DigitChar(n2 % 10)];
  }

  /** `slice(-4)` of a string followed by three characters. */
  lemma LastFourOfJoin(h: string, b: char, c: char, d: char)
    requires |h| >= 1
    ensures LastFour(h + [b, c, d]) == [h[|h| - 1], b, c, d]
  {
    var s := h + [b, c, d];
    assert s[|s| - 4..] == [h[|h| - 1], b, c, d];
  }

  /** The suffix is the clock reading's last four decimal digits, character by character. */
  lemma TimestampDigits(now: nat)
    requires now >= 1000
    ensures LastFour(DecimalString(now)) ==
              [DigitChar(now / 10 / 10 / 10 % 10), DigitChar(now / 10 / 10 % 10),
               DigitChar(now / 10 % 10), DigitChar(now % 10)]
  {
    var q := now / 10 / 10 / 10;
    var head := DecimalString(q);
    var b, c, d := DigitChar(now / 10 / 10 % 10), DigitChar(now / 10 % 10), DigitChar(now % 10);
    assert DecimalString(now) == head + [b, c, d] by {
      DecimalLastThree(now);
    }
    assert head[|head| - 1] == DigitChar(q % 10) by {
      DecimalLastDigit(q);
    }
    LastFourOfJoin(head, b, c, d);
  }

  /** The last four of at least four digits denote the value modulo 10000. */
  lemma LastFourValue(s: string)
    requires Digits(s) && |s| >= 4
    ensures Digits(LastFour(s)) && DecimalValue(LastFour(s)) == DecimalValue(s) % 10000
  {
    var suffix := s[|s| - 4..];
    var head := s[..|s| - 4];
    assert LastFour(s) == suffix;
    var a, b := DecimalValue(head), DecimalValue(suffix);
    assert DecimalValue(s) == a * 10000 + b && b < 10000 by {
      assert s == head + suffix;
      DecimalValueSplit(head, suffix);
    }
    ShiftedMod(DecimalValue(s), a, b);
  }

  /** Division with remainder by 10000 is unique. */
  lemma ShiftedMod(n: nat, a: nat, b: nat)
    requires n == a * 10000 + b && b < 10000
    ensures n % 10000 == b
  {
  }

  /** A number of at least 1000 has at least four digits. */
  lemma {:induction false} DecimalLength(n: nat)
    ensures n >= 1000 ==> |DecimalString(n)| >= 4
    ensures n >= 100 ==> |DecimalString(n)| >= 3
    ensures n >= 10 ==> |DecimalString(n)| >= 2
  {
    if n >= 10 {
      DecimalLength(n / 10);
    }
  }

  /** Appending a digit multiplies the value by ten and adds the digit. */
  lemma DecimalValueAppend(s: string, c: char)
    requires Digits(s) && IsDigit(c)
    ensures DecimalValue(s + [c]) == DecimalValue(s) * 10 + DigitValue(c)
  {
    assert (s + [c])[..|s|] == s;
  }

  /** The value of four digits after a head is the head's value times 10000 plus theirs. */
  lemma DecimalValueSplit(head: string, tail: string)
    requires |tail| == 4 && Digits(head) && Digits(tail)
    ensures DecimalValue(head + tail) == DecimalValue(head) * 10000 + DecimalValue(tail)
    ensures DecimalValue(tail) < 10000
  {
    var a, b, c, d := tail[0], tail[1], tail[2], tail[3];
    assert head + tail == head + [a] + [b] + [c] + [d];
    assert tail == [] + [a] + [b] + [c] + [d];
    DecimalValueAppend(head, a);
    DecimalValueAppend(head + [a], b);
    DecimalValueAppend(head + [a] + [b], c);
    DecimalValueAppend(head + [a] + [b] + [c], d);
    DecimalValueAppend([], a);
    DecimalValueAppend([] + [a], b);
    DecimalValueAppend([] + [a] + [b], c);
    DecimalValueAppend([] + [a] + [b] + [c], d);
  }

  /**
   * The slug is the base, a hyphen and four digits denoting `now % 10000`, so
   * it ends in a hyphen followed by four digits and has no other hyphen run.
   */
  lemma SlugShape(title: string, now: nat)
    requires now >= 1000
    ensures var slug := GenerateSlug(title, now);
            |slug| >= 5 && slug[|slug| - 5] == '-' && slug[..|slug| - 5] == SlugBase(title)
            && Digits(slug[|slug| - 4..])
            && DecimalValue(slug[|slug| - 4..]) == now % 10000
            && (SlugBase(title) == "" ==> |slug| == 5)
  {
    TimestampSuffix(now);
    SlugLayout(SlugBase(title), LastFour(DecimalString(now)));
  }

  /** Where the parts of `base + "-" + suffix` sit when the suffix has four characters. */
  lemma SlugLayout(base: string, suffix: string)
    requires |suffix| == 4
    ensures var slug := base + "-" + suffix;
            |slug| == |base| + 5 && slug[|slug| - 5] == '-' && slug[..|slug| - 5] == base
            && slug[|slug| - 4..] == suffix
  {
    var slug := base + "-" + suffix;
    assert slug[..|base|] == base;
    assert slug[|base| + 1..] == suffix;
  }

  // ---------------------------------------------------------------------------
  // Sections, their tags and the form state
  // ---------------------------------------------------------------------------

  /** `SECTIONS`: the sections a post can belong to. */
  const Sections: seq<string> := ["News", "Markets", "Top", "Press Release"]

  /** `SECTION_TAGS`: the categories offered for each section, in menu order. */
  const SectionTags: map<string, seq<string>> := map[
    "News" := ["Bitcoin", "Ethereum", "Altcoins", "DeFi", "Blockchain", "NFTs", "GameFi", "Sponsored", "P/R"],
    "Markets" := ["Market Release", "Crypto Price", "Crypto Stock", "Industry"],
    "Top" := ["Coins", "Exchange", "Casinos", "Wallets", "Mining", "Bots", "DeFi", "NFTs"],
    "Press Release" := ["Press Release"]
  ]

  /** The tag table has an entry for exactly the sections, and every entry offers a tag. */
  lemma SectionTablesAgree()
    ensures forall section :: section in SectionTags <==> section in Sections
    ensures forall section :: section in SectionTags ==> |SectionTags[section]| > 0
  {
  }

  /** The tag that choosing each section selects: the first of its list. */
  lemma FirstTags()
    ensures SectionTags["News"][0] == "Bitcoin"
    ensures SectionTags["Markets"][0] == "Market Release"
    ensures SectionTags["Top"][0] == "Coins"
    ensures SectionTags["Press Release"][0] == "Press Release"
  {
  }

  /** The `formData` record of the page. */
  datatype PostForm = PostForm(
    title: string,
    excerpt: string,
    content: string,
    section: string,
    category: string,
    imageUrl: string,
    isFeatured: bool,
    isEditorPick: bool)

  /** The `name` attributes of the inputs wired to `handleInputChange`. */
  datatype InputName = TitleInput | ExcerptInput | SectionInput | CategoryInput

  /** The `name` attributes of the checkboxes wired to `handleCheckboxChange`. */
  datatype CheckboxName = FeaturedBox | EditorPickBox

  /** The form field an input edits. */
  function FieldOf(form: PostForm, name: InputName): string
  {
    match name
    case TitleInput => form.title
    case ExcerptInput => form.excerpt
    case SectionInput => form.section
    case CategoryInput => form.category
  }

  /** The form field a checkbox edits. */
  function FlagOf(form: PostForm, name: CheckboxName): bool
  {
    match name
    case FeaturedBox => form.isFeatured
    case EditorPickBox => form.isEditorPick
  }

  /** The state the form starts in. */
  function InitialForm(): (form: PostForm)
    ensures form.title == form.excerpt == form.content == form.imageUrl == ""
    ensures form.section in SectionTags && form.category == SectionTags[form.section][0]
    ensures !form.isFeatured && !form.isEditorPick
  {
    PostForm("", "", "", "News", "Bitcoin", "", false, false)
  }

  /**
   * `handleInputChange`. A change of section also resets the category to the
   * first tag of the new section; for a value outside the tag table that
   * lookup throws, which is `None` here.
   */
  function InputChange(form: PostForm, name: InputName, value: string): (r: Option<PostForm>)
    ensures r.None? <==> name == SectionInput && value !in SectionTags
    ensures r.Some? ==> FieldOf(r.value, name) == value
    ensures r.Some? && name != SectionInput ==>
              forall other :: other != name ==> FieldOf(r.value, other) == FieldOf(form, other)
    ensures r.Some? && name == SectionInput ==>
              r.value.category in SectionTags[value] && r.value.category == SectionTags[value][0]
              && r.value.title == form.title && r.value.excerpt == form.excerpt
    ensures r.Some? ==> r.value.content == form.content && r.value.imageUrl == form.imageUrl
                        && r.value.isFeatured == form.isFeatured && r.value.isEditorPick == form.isEditorPick
  {
    match name
    case SectionInput =>
      if value in SectionTags then
        assert |SectionTags[value]| > 0 by { SectionTablesAgree(); }
        Some(form.(section := value, category := SectionTags[value][0]))
      else None
    case TitleInput => Some(form.(title := value))
    case ExcerptInput => Some(form.(excerpt := value))
    case CategoryInput => Some(form.(category := value))
  }

  /** `handleCheckboxChange`: only the named flag changes. */
  function CheckboxChange(form: PostForm, name: CheckboxName, checked: bool): (r: PostForm)
    ensures FlagOf(r, name) == checked
    ensures forall other :: other != name ==> FlagOf(r, other) == FlagOf(form, other)
    ensures forall input :: FieldOf(r, input) == FieldOf(form, input)
    ensures r.content == form.content && r.imageUrl == form.imageUrl
  {
    match name
    case FeaturedBox => form.(isFeatured := checked)
    case EditorPickBox => form.(isEditorPick := checked)
  }

  /**
   * The effect that applies the `section` query parameter: only a non-empty
   * value that is one of the sections is taken, with its first tag.
   */
  function InitFromUrl(form: PostForm, urlSection: Option<string>): (r: PostForm)
    ensures urlSection.Some? && urlSection.value in Sections ==>
              r == form.(section := urlSection.value, category := SectionTags[urlSection.value][0])
    ensures !(urlSection.Some? && urlSection.value in Sections) ==> r == form
  {
    SectionTablesAgree();
    if urlSection.Some? && urlSection.value != "" && urlSection.value in Sections then
      form.(section := urlSection.value, category := SectionTags[urlSection.value][0])
    else form
  }

  /** A section taken from the URL has the same effect as choosing it in the form. */
  lemma UrlSectionIsSectionChange(form: PostForm, section: string)
    requires section in Sections
    ensures InputChange(form, SectionInput, section) == Some(InitFromUrl(form, Some(section)))
  {
    SectionTablesAgree();
  }

  /** Without a usable URL section the form keeps the defaults `News` and `Bitcoin`. */
  lemma DefaultsWithoutUrlSection(urlSection: Option<string>)
    requires urlSection.None? || urlSection.value !in Sections
    ensures InitFromUrl(InitialForm(), urlSection).section == "News"
    ensures InitFromUrl(InitialForm(), urlSection).category == "Bitcoin"
  {
  }

  /** The chosen category is one of the tags the category menu offers for the chosen section. */
  predicate CategoryInSection(form: PostForm)
  {
    form.section in SectionTags && form.category in SectionTags[form.section]
  }

  /**
   * Every edit the menus can make keeps the category within the section's
   * tags: the start state, a section from the URL, any section choice, a
   * category picked from the offered tags, and every text or checkbox edit.
   */
  lemma CategoryStaysInSection(form: PostForm, name: InputName, value: string, box: CheckboxName,
                               checked: bool, urlSection: Option<string>)
    ensures CategoryInSection(InitialForm())
    ensures CategoryInSection(form) ==> CategoryInSection(InitFromUrl(form, urlSection))
    ensures var r := InputChange(form, name, value);
            (r.Some? && CategoryInSection(form) && (name == CategoryInput ==> value in SectionTags[form.section]))
              ==> CategoryInSection(r.value)
    ensures CategoryInSection(form) ==> CategoryInSection(CheckboxChange(form, box, checked))
  {
    SectionTablesAgree();
  }
}
