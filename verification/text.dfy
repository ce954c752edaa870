/** The string operations the scraper applies to page text and URLs:
    regex character-class filtering (`re.sub(r'[^...]', '', s)`), `int()` of
    a digit string, `str.strip()`, `str.count()` and `str.split()`. */
module Text {
  import opened Basics

  predicate IsDigit(c: char) {
    '0' <= c <= '9'
  }

  predicate IsDigitOrPlus(c: char) {
    IsDigit(c) || c == '+'
  }

  predicate IsNotPlus(c: char) {
    c != '+'
  }

  predicate AllDigits(s: string) {
    forall i :: 0 <= i < |s| ==> IsDigit(s[i])
  }

  /** Python's `str.isspace()`: the characters `str.strip()` removes. */
  predicate IsSpace(c: char) {
    || '\t' <= c <= '\r'
    || '\U{001C}' <= c <= ' '
    || c == '\U{0085}' || c == '\U{00A0}' || c == '\U{1680}'
    || '\U{2000}' <= c <= '\U{200A}'
    || c == '\U{2028}' || c == '\U{2029}' || c == '\U{202F}' || c == '\U{205F}' || c == '\U{3000}'
  }

  predicate AllSpace(s: string) {
    forall i :: 0 <= i < |s| ==> IsSpace(s[i])
  }

  // ---------------------------------------------------------------------------
  // Character-class filtering

  /** The characters of `s` that satisfy `keep`, in their original order:
      `re.sub` with a negated character class and an empty replacement. */
  function Keep(s: string, keep: char -> bool): (r: string)
    ensures |r| <= |s|
    ensures forall i :: 0 <= i < |r| ==> keep(r[i])
  {
    if |s| == 0 then []
    else (if keep(s[0]) then [s[0]] else []) + Keep(s[1..], keep)
  }

  /** Filtering keeps every occurrence of every kept character and drops
      every other character. */
  lemma {:induction false} KeepCounts(s: string, keep: char -> bool, c: char)
    ensures keep(c) ==> multiset(Keep(s, keep))[c] == multiset(s)[c]
    ensures !keep(c) ==> multiset(Keep(s, keep))[c] == 0
  {
    if |s| > 0 {
      assert s == [s[0]] + s[1..];
      KeepCounts(s[1..], keep, c);
    }
  }

  /** Filtering distributes over concatenation, so it preserves order. */
  lemma {:induction false} KeepAppend(a: string, b: string, keep: char -> bool)
    ensures Keep(a + b, keep) == Keep(a, keep) + Keep(b, keep)
  {
    if |a| == 0 {
      assert a + b == b;
    } else {
      assert (a + b)[1..] == a[1..] + b;
      KeepAppend(a[1..], b, keep);
    }
  }

  /** Some character of `s` satisfies `keep`. */
  predicate HasAny(s: string, keep: char -> bool) {
    exists i :: 0 <= i < |s| && keep(s[i])
  }

  /** Filtering leaves something exactly when some character is kept. */
  lemma {:induction false} KeepEmptyIff(s: string, keep: char -> bool)
    ensures |Keep(s, keep)| == 0 <==> !HasAny(s, keep)
  {
    if |s| > 0 {
      KeepEmptyIff(s[1..], keep);
      if HasAny(s[1..], keep) {
        var i :| 0 <= i < |s[1..]| && keep(s[1..][i]);
        assert keep(s[i + 1]);
      }
      if HasAny(s, keep) && !keep(s[0]) {
        var i :| 0 <= i < |s| && keep(s[i]);
        assert keep(s[1..][i - 1]);
      }
    }
  }

  /** A string with no kept character filters to the empty string. */
  lemma KeepNone(s: string, keep: char -> bool)
    requires forall i :: 0 <= i < |s| ==> !keep(s[i])
    ensures Keep(s, keep) == []
  {
    KeepEmptyIff(s, keep);
  }

  /** `re.sub(r'[^\d+]', '', s).replace('+', '')` keeps exactly the digits of `s`. */
  lemma {:induction false} DigitsOfDigitsOrPlus(s: string)
    ensures Keep(Keep(s, IsDigitOrPlus), IsNotPlus) == Keep(s, IsDigit)
  {
    if |s| > 0 {
      assert s == [s[0]] + s[1..];
      var head := if IsDigitOrPlus(s[0]) then [s[0]] else [];
      KeepAppend(head, Keep(s[1..], IsDigitOrPlus), IsNotPlus);
      DigitsOfDigitsOrPlus(s[1..]);
    }
  }

  // ---------------------------------------------------------------------------
  // Decimal numerals

  function DigitValue(c: char): nat
    requires IsDigit(c)
  {
    (c as int) - ('0' as int)
  }

  function DigitChar(d: nat): (c: char)
    requires d < 10
    ensures IsDigit(c) && DigitValue(c) == d
  {
    (('0' as int) + d) as char
  }

  /** The number a string of ASCII digits denotes (leading zeros allowed). */
  function DecimalValue(ds: string): nat
    requires AllDigits(ds)
  {
    if |ds| == 0 then 0
    else 10 * DecimalValue(ds[..|ds| - 1]) + DigitValue(ds[|ds| - 1])
  }

  /** Python's `int()` applied to a string of ASCII digits: the empty string
      raises `ValueError`, modelled as `None`. A numeral without a leading
      zero is the one `ToDecimal` writes for the number read. */
  function ParseDigits(ds: string): (r: Option<nat>)
    requires AllDigits(ds)
    ensures r.None? <==> |ds| == 0
    ensures r.Some? && (|ds| == 1 || ds[0] != '0') ==> ToDecimal(r.value) == ds
  {
    if |ds| == 0 then None
    else
      CanonicalRoundTrip(ds);
      Some(DecimalValue(ds))
  }

  /** A numeral that starts with a non-zero digit denotes a positive number. */
  lemma {:induction false} LeadingDigitPositive(ds: string)
    requires |ds| > 0 && AllDigits(ds) && ds[0] != '0'
    ensures DecimalValue(ds) > 0
  {
    if |ds| > 1 {
      LeadingDigitPositive(ds[..|ds| - 1]);
    }
  }

  /** Writing out the number a numeral without leading zeros denotes gives
      the numeral back. */
  lemma {:induction false} CanonicalRoundTrip(ds: string)
    requires |ds| > 0 && AllDigits(ds)
    ensures |ds| == 1 || ds[0] != '0' ==> ToDecimal(DecimalValue(ds)) == ds
  {
    if |ds| == 1 {
      assert DecimalValue(ds) == DigitValue(ds[0]);
      assert DigitChar(DigitValue(ds[0])) == ds[0];
    } else if ds[0] != '0' {
      var init := ds[..|ds| - 1];
      var d := DigitValue(ds[|ds| - 1]);
      CanonicalRoundTrip(init);
      LeadingDigitPositive(init);
      var v := DecimalValue(ds);
      assert v == 10 * DecimalValue(init) + d;
      assert v / 10 == DecimalValue(init) && v % 10 == d;
      assert DigitChar(d) == ds[|ds| - 1];
      assert ds == init + [ds[|ds| - 1]];
    }
  }

  /** The canonical decimal numeral of `n`: never empty, digits only. */
  function ToDecimal(n: nat): (s: string)
    ensures |s| > 0 && AllDigits(s)
    ensures |s| == 1 || s[0] != '0'
  {
    if n < 10 then [DigitChar(n)] else ToDecimal(n / 10) + [DigitChar(n % 10)]
  }

  /** Reading back the numeral `ToDecimal` writes gives the number. */
  lemma {:induction false} DecimalRoundTrip(n: nat)
    ensures DecimalValue(ToDecimal(n)) == n
  {
    if n >= 10 {
      var s := ToDecimal(n);
      assert s[..|s| - 1] == ToDecimal(n / 10);
      DecimalRoundTrip(n / 10);
    }
  }

  // ---------------------------------------------------------------------------
  // Substring search

  predicate OccursAt(s: string, pat: string, i: int) {
    0 <= i && i + |pat| <= |s| && s[i..i + |pat|] == pat
  }

  predicate Contains(s: string, pat: string) {
    exists i :: 0 <= i <= |s| && OccursAt(s, pat, i)
  }

  /** Python's `s.count(pat)` for a non-empty pattern: the number of
      non-overlapping occurrences, scanning from the left. */
  function CountOccurrences(s: string, pat: string): (n: nat)
    requires |pat| > 0
    ensures n * |pat| <= |s|
    decreases |s|
  {
    if |s| < |pat| then 0
    else if s[..|pat|] == pat then 1 + CountOccurrences(s[|pat|..], pat)
    else CountOccurrences(s[1..], pat)
  }

  /** The count is positive exactly when the pattern occurs somewhere. */
  lemma {:induction false} CountPositiveIffContains(s: string, pat: string)
    requires |pat| > 0
    ensures CountOccurrences(s, pat) > 0 <==> Contains(s, pat)
    decreases |s|
  {
    if |s| < |pat| {
    } else if s[..|pat|] == pat {
      assert OccursAt(s, pat, 0);
    } else {
      CountPositiveIffContains(s[1..], pat);
      if Contains(s[1..], pat) {
        var i :| 0 <= i <= |s[1..]| && OccursAt(s[1..], pat, i);
        assert i + |pat| <= |s| - 1;
        assert s[1..][i..i + |pat|] == s[i + 1..i + 1 + |pat|];
        assert OccursAt(s, pat, i + 1);
      }
      if Contains(s, pat) {
        var i :| 0 <= i <= |s| && OccursAt(s, pat, i);
        assert i != 0;
        assert i + |pat| <= |s|;
        assert s[1..][i - 1..i - 1 + |pat|] == s[i..i + |pat|];
        assert OccursAt(s[1..], pat, i - 1);
      }
    }
  }

  // ---------------------------------------------------------------------------
  // Whitespace stripping

  function StripStart(s: string): (r: string)
    ensures |r| <= |s| && r == s[|s| - |r|..] && AllSpace(s[..|s| - |r|])
    ensures |r| == 0 || !IsSpace(r[0])
  {
    if |s| > 0 && IsSpace(s[0]) then StripStart(s[1..]) else s
  }

  function StripEnd(s: string): (r: string)
    ensures |r| <= |s| && r == s[..|r|] && AllSpace(s[|r|..])
    ensures |r| == 0 || !IsSpace(r[|r| - 1])
  {
    if |s| > 0 && IsSpace(s[|s| - 1]) then StripEnd(s[..|s| - 1]) else s
  }

  /** Python's `s.strip()`: the result neither starts nor ends with
      whitespace (`StripRemovesOnlySpace` says what was removed). */
  function Strip(s: string): (r: string)
    ensures |r| == 0 || (!IsSpace(r[0]) && !IsSpace(r[|r| - 1]))
  {
    StripEnd(StripStart(s))
  }

  /** A string is the part `StripStart` removed, the part `StripEnd` kept
      and the part `StripEnd` removed, in that order. */
  lemma StripSplits(s: string, pre: string, t: string, r: string, post: string)
    requires |t| <= |s| && t == s[|s| - |t|..] && pre == s[..|s| - |t|]
    requires |r| <= |t| && r == t[..|r|] && post == t[|r|..]
    ensures s == pre + r + post
  {
    assert s == pre + t;
    assert t == r + post;
  }

  /** What `Strip` removes is whitespace, from the two ends only. */
  lemma StripRemovesOnlySpace(s: string)
    ensures exists pre, post :: s == pre + Strip(s) + post && AllSpace(pre) && AllSpace(post)
  {
    var t := StripStart(s);
    var r := StripEnd(t);
    var pre := s[..|s| - |t|];
    var post := t[|r|..];
    StripSplits(s, pre, t, r, post);
    assert s == pre + Strip(s) + post && AllSpace(pre) && AllSpace(post);
  }

  /** Stripping never changes which digits a text carries. */
  lemma StripKeepsDigits(s: string, keep: char -> bool)
    requires forall c :: IsSpace(c) ==> !keep(c)
    ensures Keep(Strip(s), keep) == Keep(s, keep)
  {
    var r := Strip(s);
    StripRemovesOnlySpace(s);
    var pre, post :| s == pre + r + post && AllSpace(pre) && AllSpace(post);
    KeepAppend(pre + r, post, keep);
    KeepAppend(pre, r, keep);
    KeepNone(pre, keep);
    KeepNone(post, keep);
  }

  // ---------------------------------------------------------------------------
  // Splitting

  /** Python's `s.split(sep)` for a one-character separator: one more part
      than there are separators, and no part contains the separator. */
  function Split(s: string, sep: char): (parts: seq<string>)
    ensures |parts| > 0
    ensures forall i :: 0 <= i < |parts| ==> sep !in parts[i]
    decreases |s|
  {
    if |s| == 0 then [""]
    else
      var rest := Split(s[1..], sep);
      if s[0] == sep then [""] + rest else [[s[0]] + rest[0]] + rest[1..]
  }

  /** There is one more part than there are separators. */
  lemma {:induction false} SplitCount(s: string, sep: char)
    ensures |Split(s, sep)| == multiset(s)[sep] + 1
  {
    if |s| > 0 {
      assert s == [s[0]] + s[1..];
      SplitCount(s[1..], sep);
    }
  }

  /** Python's `sep.join(parts)`. */
  function Join(parts: seq<string>, sep: char): string
    requires |parts| > 0
  {
    if |parts| == 1 then parts[0] else parts[0] + [sep] + Join(parts[1..], sep)
  }

  /** Joining the parts of a split restores the original string. */
  lemma {:induction false} JoinSplit(s: string, sep: char)
    ensures Join(Split(s, sep), sep) == s
    decreases |s|
  {
    if |s| > 0 {
      var rest := Split(s[1..], sep);
      JoinSplit(s[1..], sep);
      if s[0] == sep {
        assert ([""] + rest)[1..] == rest;
      } else {
        var parts := [[s[0]] + rest[0]] + rest[1..];
        if |rest| > 1 {
          assert parts[1..] == rest[1..];
        }
      }
    }
  }

  /** A separator-free prefix is glued to the first part of what follows. */
  lemma {:induction false} SplitAfterPrefix(a: string, b: string, sep: char)
    requires sep !in a
    ensures Split(a + b, sep) == [a + Split(b, sep)[0]] + Split(b, sep)[1..]
    decreases |a|
  {
    var parts := Split(b, sep);
    if |a| == 0 {
      assert a + b == b;
      assert a + parts[0] == parts[0];
      assert parts == [parts[0]] + parts[1..];
    } else {
      assert (a + b)[1..] == a[1..] + b;
      assert (a + b)[0] == a[0];
      SplitAfterPrefix(a[1..], b, sep);
      assert [a[0]] + (a[1..] + Split(b, sep)[0]) == a + Split(b, sep)[0];
    }
  }

  /** A separator ends the first part: what follows it is split on its own. */
  lemma SplitSeparator(a: string, b: string, sep: char)
    requires sep !in a
    ensures Split(a + [sep] + b, sep) == [a] + Split(b, sep)
  {
    var c := [sep] + b;
    assert a + [sep] + b == a + c;
    SplitAfterPrefix(a, c, sep);
    assert c[0] == sep && c[1..] == b;
    assert Split(c, sep) == [""] + Split(b, sep);
    assert a + "" == a;
  }

  /** Splitting the join of separator-free parts gives the parts back. */
  lemma {:induction false} SplitJoin(parts: seq<string>, sep: char)
    requires |parts| > 0
    requires forall i :: 0 <= i < |parts| ==> sep !in parts[i]
    ensures Split(Join(parts, sep), sep) == parts
  {
    if |parts| == 1 {
      SplitAfterPrefix(parts[0], [], sep);
      assert parts[0] + [] == parts[0];
    } else {
      var tail := Join(parts[1..], sep);
      SplitJoin(parts[1..], sep);
      SplitSeparator(parts[0], tail, sep);
      assert parts == [parts[0]] + parts[1..];
    }
  }

  /** The first part of a split is a prefix of the string. */
  lemma {:induction false} SplitFirstIsPrefix(s: string, sep: char)
    ensures |Split(s, sep)[0]| <= |s| && Split(s, sep)[0] == s[..|Split(s, sep)[0]|]
  {
    if |s| > 0 && s[0] != sep {
      SplitFirstIsPrefix(s[1..], sep);
    }
  }

  /** The first part of a split is everything before the first separator. */
  lemma SplitFirst(a: string, b: string, sep: char)
    requires sep !in a
    requires |b| == 0 || b[0] == sep
    ensures Split(a + b, sep)[0] == a
  {
    SplitAfterPrefix(a, b, sep);
    assert a + Split(b, sep)[0] == a;
  }
}
