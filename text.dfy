/**
 * The string operations the bot relies on: Java's `toLowerCase` and `trim`, the
 * normalization `message.toLowerCase().trim()` the router applies, prefix tests, and the
 * decimal rendering of an `int` that Java's string concatenation performs.
 */
module Text {

  /** Java's `String.trim` strips every leading and trailing char whose code is at most U+0020. */
  predicate IsTrimmable(c: char) {
    c <= ' '
  }

  predicate IsUpper(c: char) {
    'A' <= c <= 'Z'
  }

  /** Case mapping of one char (ASCII letters only). */
  function LowerChar(c: char): (r: char)
    ensures !IsUpper(r)
    ensures IsUpper(c) ==> r as int == c as int + 32
    ensures !IsUpper(c) ==> r == c
  {
    if IsUpper(c) then (c as int - 'A' as int + 'a' as int) as char else c
  }

  /**
   * `toLowerCase` (ASCII letters only): the text keeps its length, no upper-case letter is
   * left, an upper-case letter becomes its lower-case counterpart and every other char stays.
   */
  function ToLower(s: string): (r: string)
    ensures |r| == |s|
    ensures forall i :: 0 <= i < |r| ==> !IsUpper(r[i])
    ensures forall i :: 0 <= i < |s| && IsUpper(s[i]) ==> r[i] as int == s[i] as int + 32
    ensures forall i :: 0 <= i < |s| && !IsUpper(s[i]) ==> r[i] == s[i]
  {
    seq(|s|, i requires 0 <= i < |s| => LowerChar(s[i]))
  }

  /** A text without upper-case letters is its own lower-casing. */
  lemma LowerOfLower(s: string)
    requires forall i :: 0 <= i < |s| ==> !IsUpper(s[i])
    ensures ToLower(s) == s
  {
  }

  /** Lower-casing twice is lower-casing once. */
  lemma ToLowerIdempotent(s: string)
    ensures ToLower(ToLower(s)) == ToLower(s)
  {
    LowerOfLower(ToLower(s));
  }

  /** Lower-casing works char by char, so it distributes over concatenation. */
  lemma ToLowerAppend(a: string, b: string)
    ensures ToLower(a + b) == ToLower(a) + ToLower(b)
  {
  }

  /** Java's first `trim` loop: from `st`, the index of the first char that is not trimmable (or |s|). */
  function SkipLeading(s: string, st: nat): (n: nat)
    requires st <= |s|
    ensures st <= n <= |s|
    ensures n < |s| ==> !IsTrimmable(s[n])
    decreases |s| - st
  {
    if st < |s| && IsTrimmable(s[st]) then SkipLeading(s, st + 1) else st
  }

  /** Every char the first loop skips is trimmable. */
  lemma {:induction false} LeadingAreBlank(s: string, st: nat)
    requires st <= |s|
    ensures forall j :: st <= j < SkipLeading(s, st) ==> IsTrimmable(s[j])
    decreases |s| - st
  {
    if st < |s| && IsTrimmable(s[st]) {
      LeadingAreBlank(s, st + 1);
    }
  }

  /** Java's second `trim` loop: `len` moves down past trailing trimmable chars, never below `st`. */
  function SkipTrailing(s: string, st: nat, len: nat): (n: nat)
    requires st <= len <= |s|
    ensures st <= n <= len
    ensures n > st ==> !IsTrimmable(s[n - 1])
    decreases len
  {
    if st < len && IsTrimmable(s[len - 1]) then SkipTrailing(s, st, len - 1) else len
  }

  /** Every char the second loop drops is trimmable. */
  lemma {:induction false} TrailingAreBlank(s: string, st: nat, len: nat)
    requires st <= len <= |s|
    ensures forall j :: SkipTrailing(s, st, len) <= j < len ==> IsTrimmable(s[j])
    decreases len
  {
    if st < len && IsTrimmable(s[len - 1]) {
      TrailingAreBlank(s, st, len - 1);
    }
  }

  /** `trim`: the text between the two indices the loops settle on. */
  function Trim(s: string): string {
    var st := SkipLeading(s, 0);
    s[st..SkipTrailing(s, st, |s|)]
  }

  /** The first loop's index is the only one with blanks before it and none at it. */
  lemma LeadingUnique(s: string, st: nat, m: nat)
    requires st <= m <= |s|
    requires forall j :: st <= j < m ==> IsTrimmable(s[j])
    requires m < |s| ==> !IsTrimmable(s[m])
    ensures SkipLeading(s, st) == m
  {
    LeadingAreBlank(s, st);
  }

  /** The second loop's index is the only one with blanks from it on and none just before. */
  lemma TrailingUnique(s: string, st: nat, len: nat, m: nat)
    requires st <= m <= len <= |s|
    requires forall j :: m <= j < len ==> IsTrimmable(s[j])
    requires m > st ==> !IsTrimmable(s[m - 1])
    ensures SkipTrailing(s, st, len) == m
  {
    TrailingAreBlank(s, st, len);
  }

  /** The router's normalization of an inbound text (CartBot.java:81). */
  function Normalize(s: string): string {
    Trim(ToLower(s))
  }

  /** A string that normalization leaves alone: no upper-case letter, nothing to trim. */
  predicate IsNormal(s: string) {
    (forall i :: 0 <= i < |s| ==> !IsUpper(s[i])) &&
    (s == [] || (!IsTrimmable(s[0]) && !IsTrimmable(s[|s| - 1])))
  }

  predicate StartsWith(s: string, prefix: string) {
    |prefix| <= |s| && s[..|prefix|] == prefix
  }

  lemma TrimOfUntrimmed(s: string)
    requires s == [] || (!IsTrimmable(s[0]) && !IsTrimmable(s[|s| - 1]))
    ensures Trim(s) == s
  {
    LeadingUnique(s, 0, 0);
    TrailingUnique(s, 0, |s|, |s|);
  }

  /** Trim returns chars of its input. */
  lemma TrimKeepsChars(s: string)
    ensures forall k :: 0 <= k < |Trim(s)| ==> Trim(s)[k] in s
  {
    var st := SkipLeading(s, 0);
    SliceChars(s, st, SkipTrailing(s, st, |s|));
  }

  lemma SliceChars(s: string, i: nat, j: nat)
    requires i <= j <= |s|
    ensures forall k :: 0 <= k < j - i ==> s[i..j][k] in s
  {
    forall k | 0 <= k < j - i ensures s[i..j][k] in s {
      assert s[i..j][k] == s[i + k];
    }
  }

  /** Trim leaves nothing to trim at either end. */
  lemma TrimLeavesNoBlankEnds(s: string)
    ensures Trim(s) == [] || (!IsTrimmable(Trim(s)[0]) && !IsTrimmable(Trim(s)[|Trim(s)| - 1]))
  {
    var st := SkipLeading(s, 0);
    var len := SkipTrailing(s, st, |s|);
    var r := s[st..len];
    if r != [] {
      assert r[0] == s[st];
      assert r[|r| - 1] == s[len - 1];
    }
  }

  /** Normalized text is in normal form: lower case and trimmed. */
  lemma NormalizeIsNormal(s: string)
    ensures IsNormal(Normalize(s))
  {
    TrimKeepsChars(ToLower(s));
    TrimLeavesNoBlankEnds(ToLower(s));
  }

  lemma NormalIsFixed(s: string)
    requires IsNormal(s)
    ensures Normalize(s) == s
  {
    LowerOfLower(s);
    TrimOfUntrimmed(s);
  }

  /** Normalizing twice is normalizing once, so routing ignores case and surrounding blanks. */
  lemma NormalizeIdempotent(s: string)
    ensures Normalize(Normalize(s)) == Normalize(s)
  {
    NormalizeIsNormal(s);
    NormalIsFixed(Normalize(s));
  }

  predicate AllTrimmable(s: string) {
    forall i :: 0 <= i < |s| ==> IsTrimmable(s[i])
  }

  /** Surrounding whitespace does not survive trimming. */
  lemma TrimIgnoresPadding(pre: string, s: string, post: string)
    requires AllTrimmable(pre) && AllTrimmable(post)
    ensures Trim(pre + s + post) == Trim(s)
  {
    if SkipLeading(s, 0) == |s| {
      BlankPaddedTrim(pre, s, post);
    } else {
      var a := SkipLeading(s, 0);
      PaddedIndices(pre, s, post);
      MiddleSlice(pre, s, post, a, SkipTrailing(s, a, |s|));
    }
  }

  lemma AllTrimmableAppend(a: string, b: string)
    requires AllTrimmable(a) && AllTrimmable(b)
    ensures AllTrimmable(a + b)
  {
    forall j | 0 <= j < |a + b| ensures IsTrimmable((a + b)[j]) {
      if j < |a| {
        assert (a + b)[j] == a[j];
      } else {
        assert (a + b)[j] == b[j - |a|];
      }
    }
  }

  /** A blank text stays blank when padded, and both trim to nothing. */
  lemma BlankPaddedTrim(pre: string, s: string, post: string)
    requires AllTrimmable(pre) && AllTrimmable(post) && SkipLeading(s, 0) == |s|
    ensures Trim(pre + s + post) == [] && Trim(s) == []
  {
    LeadingAreBlank(s, 0);
    assert AllTrimmable(s);
    AllTrimmableAppend(pre, s);
    AllTrimmableAppend(pre + s, post);
    var t := pre + s + post;
    LeadingUnique(t, 0, |t|);
  }

  lemma MiddleSlice(pre: string, s: string, post: string, a: nat, b: nat)
    requires a <= b <= |s|
    ensures (pre + s + post)[|pre| + a..|pre| + b] == s[a..b]
  {
    var t := pre + s + post;
    var u, v := t[|pre| + a..|pre| + b], s[a..b];
    assert |u| == |v|;
    forall k | 0 <= k < |u| ensures u[k] == v[k] {
      assert u[k] == t[|pre| + a + k] == s[a + k];
    }
  }

  /** With a non-blank char in the text, both trim loops on the padded text stop where they stop on the text, shifted by the leading padding. */
  lemma PaddedIndices(pre: string, s: string, post: string)
    requires AllTrimmable(pre) && AllTrimmable(post)
    requires SkipLeading(s, 0) < |s|
    ensures var t := pre + s + post;
            var a := SkipLeading(s, 0);
            SkipLeading(t, 0) == |pre| + a &&
            SkipTrailing(t, |pre| + a, |t|) == |pre| + SkipTrailing(s, a, |s|)
  {
    PaddedLeading(pre, s, post);
    PaddedTrailing(pre, s, post, SkipLeading(s, 0));
  }

  lemma PaddedLeading(pre: string, s: string, post: string)
    requires AllTrimmable(pre) && SkipLeading(s, 0) < |s|
    ensures SkipLeading(pre + s + post, 0) == |pre| + SkipLeading(s, 0)
  {
    var t := pre + s + post;
    var a := SkipLeading(s, 0);
    LeadingAreBlank(s, 0);
    forall j | 0 <= j < |pre| + a ensures IsTrimmable(t[j]) {
      if j < |pre| {
        assert t[j] == pre[j];
      } else {
        assert t[j] == s[j - |pre|];
      }
    }
    assert t[|pre| + a] == s[a];
    LeadingUnique(t, 0, |pre| + a);
  }

  lemma PaddedTrailing(pre: string, s: string, post: string, a: nat)
    requires AllTrimmable(post) && a <= |s|
    ensures var t := pre + s + post;
            SkipTrailing(t, |pre| + a, |t|) == |pre| + SkipTrailing(s, a, |s|)
  {
    var t := pre + s + post;
    var b := SkipTrailing(s, a, |s|);
    TrailingAreBlank(s, a, |s|);
    forall j | |pre| + b <= j < |t| ensures IsTrimmable(t[j]) {
      if j < |pre| + |s| {
        assert t[j] == s[j - |pre|];
      } else {
        assert t[j] == post[j - |pre| - |s|];
      }
    }
    if b > a {
      assert t[|pre| + b - 1] == s[b - 1];
    }
    TrailingUnique(t, |pre| + a, |t|, |pre| + b);
  }

  /** Routing ignores letter case and surrounding whitespace: padding the text with blanks or
      changing the case of its letters leaves its normalization unchanged. */
  lemma NormalizeIgnoresCaseAndBlanks(pre: string, s: string, post: string)
    requires AllTrimmable(pre) && AllTrimmable(post)
    ensures Normalize(pre + ToLower(s) + post) == Normalize(s)
  {
    LowerOfLower(pre);
    LowerOfLower(post);
    ToLowerIdempotent(s);
    ToLowerAppend(pre, ToLower(s));
    ToLowerAppend(pre + ToLower(s), post);
    TrimIgnoresPadding(pre, ToLower(s), post);
  }

  /** The concatenation of a list of strings, in order. */
  function Concat(parts: seq<string>): string {
    if parts == [] then "" else Concat(parts[..|parts| - 1]) + parts[|parts| - 1]
  }

  lemma ConcatSingle(part: string)
    ensures Concat([part]) == part
  {
    assert [part][..0] == [];
  }

  /** Concatenating joined lists is joining their concatenations. */
  lemma {:induction false} ConcatAppend(xs: seq<string>, ys: seq<string>)
    ensures Concat(xs + ys) == Concat(xs) + Concat(ys)
  {
    if ys == [] {
      assert xs + ys == xs;
    } else {
      var ys' := ys[..|ys| - 1];
      assert (xs + ys)[..|xs + ys| - 1] == xs + ys';
      assert (xs + ys)[|xs + ys| - 1] == ys[|ys| - 1];
      ConcatAppend(xs, ys');
      var cx, cy', y := Concat(xs), Concat(ys'), ys[|ys| - 1];
      assert cx + cy' + y == cx + (cy' + y);
    }
  }

  /** A decimal digit value as a char. */
  function DigitChar(d: nat): (c: char)
    requires d < 10
    ensures '0' <= c <= '9' && c as int - '0' as int == d
  {
    ('0' as int + d) as char
  }

  predicate IsDigits(s: string) {
    forall i :: 0 <= i < |s| ==> '0' <= s[i] <= '9'
  }

  /** The value a string of decimal digits denotes. */
  function DecimalValue(s: string): nat
    requires IsDigits(s)
  {
    if s == [] then 0 else 10 * DecimalValue(s[..|s| - 1]) + (s[|s| - 1] as int - '0' as int)
  }

  /** Decimal rendering of a natural number, as `Integer.toString` writes it. */
  function NatToString(n: nat): (r: string)
    ensures |r| >= 1 && IsDigits(r)
    ensures r[0] == '0' ==> n == 0 && r == "0"
  {
    if n < 10 then [DigitChar(n)] else NatToString(n / 10) + [DigitChar(n % 10)]
  }

  /** Decimal rendering of an `int`, with Java's leading minus sign for negatives. */
  function IntToString(i: int): (r: string)
    ensures |r| >= 1
    ensures i >= 0 ==> IsDigits(r)
    ensures i < 0 ==> r[0] == '-' && IsDigits(r[1..])
  {
    if i < 0 then "-" + NatToString(-i) else NatToString(i)
  }

  /** The rendering reads back as the number it renders. */
  lemma {:induction false} NatToStringRoundTrip(n: nat)
    ensures DecimalValue(NatToString(n)) == n
  {
    if n >= 10 {
      NatToStringRoundTrip(n / 10);
      var s := NatToString(n);
      assert s[..|s| - 1] == NatToString(n / 10);
    }
  }
}
