/**
 * String helpers shared by the model: Python's `str.split` on one separator
 * character, `in` on strings, decimal formatting of integers (`str`, f-strings)
 * and decimal parsing (`int(...)`).
 */
module Text {
  import opened Wrappers

  // ---------------------------------------------------------------- decimal digits

  /** An ASCII decimal digit; Python's `\d` and `int()` also accept the other Unicode decimal digits. */
  predicate IsDigit(c: char) { '0' <= c <= '9' }

  /** Every character is an ASCII decimal digit (the empty string qualifies). */
  predicate AllDigits(s: string) { forall i :: 0 <= i < |s| ==> IsDigit(s[i]) }

  /** A non-empty run of ASCII decimal digits: `\d+` restricted to ASCII. */
  predicate IsDigits(s: string) { |s| > 0 && AllDigits(s) }

  function DigitChar(d: nat): (c: char)
    requires d < 10
    ensures IsDigit(c)
  {
    ('0' as int + d) as char
  }

  /** The value of a string of decimal digits, leading zeros allowed. */
  function DigitsValue(s: string): nat
    requires AllDigits(s)
    decreases |s|
  {
    if |s| == 0 then 0
    else DigitsValue(s[..|s| - 1]) * 10 + (s[|s| - 1] as int - '0' as int)
  }

  /** Python's `str(n)` for a non-negative integer: shortest decimal digits. */
  function NatToString(n: nat): (s: string)
    ensures IsDigits(s)
    ensures DigitsValue(s) == n
    ensures |s| > 1 ==> s[0] != '0'
    decreases n
  {
    if n < 10 then [DigitChar(n)]
    else
      var front := NatToString(n / 10);
      assert (front + [DigitChar(n % 10)])[..|front|] == front;
      front + [DigitChar(n % 10)]
  }

  /** Python's `str(i)` (and `f'{i}'`) for any integer. */
  function IntToString(i: int): (s: string)
    ensures |s| > 0
    ensures forall k :: 0 <= k < |s| ==> IsDigit(s[k]) || s[k] == '-'
  {
    if i < 0 then "-" + NatToString(-i) else NatToString(i)
  }

  /**
   * Python's `int(s)` restricted to an optional sign followed by ASCII digits
   * (no surrounding whitespace, no `_` separators, no other Unicode digits);
   * `None` stands for the `ValueError` it raises otherwise.
   */
  function ParseInt(s: string): (r: Option<int>)
    ensures r.Some? <==> IsDigits(s) || (|s| > 1 && (s[0] == '-' || s[0] == '+') && IsDigits(s[1..]))
  {
    if |s| > 0 && (s[0] == '-' || s[0] == '+') then
      if IsDigits(s[1..]) then
        var magnitude: int := DigitsValue(s[1..]);
        Some(if s[0] == '-' then -magnitude else magnitude)
      else None
    else if IsDigits(s) then Some(DigitsValue(s))
    else None
  }

  /** Formatting an integer and parsing it back gives the same integer. */
  lemma ParseIntToString(i: int)
    ensures ParseInt(IntToString(i)) == Some(i)
  {
    if i < 0 {
      assert IntToString(i)[1..] == NatToString(-i);
    }
  }

  // ---------------------------------------------------------------- split and join

  /** Python's `s.split(sep)` for a one-character separator: never empty, no field holds `sep`. */
  function Split(s: string, sep: char): (parts: seq<string>)
    ensures |parts| >= 1
    ensures forall k :: 0 <= k < |parts| ==> sep !in parts[k]
    decreases |s|
  {
    if |s| == 0 then [""]
    else
      var rest := Split(s[1..], sep);
      if s[0] == sep then [""] + rest
      else [[s[0]] + rest[0]] + rest[1..]
  }

  /** Python's `sep.join(parts)`. */
  function Join(parts: seq<string>, sep: char): string
    requires |parts| >= 1
    decreases |parts|
  {
    if |parts| == 1 then parts[0] else parts[0] + [sep] + Join(parts[1..], sep)
  }

  /** The text before the first `sep` (all of `s` when there is none). */
  function Before(s: string, sep: char): (r: string)
    ensures |r| <= |s|
    decreases |s|
  {
    if |s| == 0 || s[0] == sep then "" else [s[0]] + Before(s[1..], sep)
  }

  lemma {:induction false} BeforeIsPrefix(s: string, sep: char)
    ensures Before(s, sep) == s[..|Before(s, sep)|]
    ensures sep !in Before(s, sep)
    ensures Before(s, sep) == s <==> sep !in s
    decreases |s|
  {
    if |s| > 0 && s[0] != sep {
      BeforeIsPrefix(s[1..], sep);
      assert s == [s[0]] + s[1..];
    }
  }

  lemma {:induction false} BeforeSeparated(a: string, sep: char, b: string)
    ensures Before(a + [sep] + b, sep) == Before(a, sep)
    decreases |a|
  {
    if |a| > 0 && a[0] != sep {
      assert (a + [sep] + b)[1..] == a[1..] + [sep] + b;
      BeforeSeparated(a[1..], sep, b);
    } else if |a| == 0 {
      assert (a + [sep] + b)[0] == sep;
    }
  }

  /** The first field of a split is the text before the first separator. */
  lemma {:induction false} SplitHead(s: string, sep: char)
    ensures Split(s, sep)[0] == Before(s, sep)
    decreases |s|
  {
    if |s| > 0 {
      SplitHead(s[1..], sep);
    }
  }

  /** Splitting a string without the separator gives the string alone. */
  lemma {:induction false} SplitNoSeparator(a: string, sep: char)
    requires sep !in a
    ensures Split(a, sep) == [a]
    decreases |a|
  {
    if |a| > 0 {
      SplitNoSeparator(a[1..], sep);
      assert a == [a[0]] + a[1..];
    }
  }

  /** A separator-free first field splits off as one field. */
  lemma {:induction false} SplitSeparated(a: string, sep: char, b: string)
    requires sep !in a
    ensures Split(a + [sep] + b, sep) == [a] + Split(b, sep)
    decreases |a|
  {
    if |a| == 0 {
      assert a + [sep] + b == [sep] + b;
      assert ([sep] + b)[1..] == b;
    } else {
      assert (a + [sep] + b)[1..] == a[1..] + [sep] + b;
      SplitSeparated(a[1..], sep, b);
      assert a == [a[0]] + a[1..];
    }
  }

  /** A separator-free head is determined by the string it starts. */
  lemma SeparatedUnique(a1: string, b1: string, a2: string, b2: string, sep: char)
    requires sep !in a1 && sep !in a2
    requires a1 + [sep] + b1 == a2 + [sep] + b2
    ensures a1 == a2 && b1 == b2
  {
    SplitSeparated(a1, sep, b1);
    SplitSeparated(a2, sep, b2);
    assert a1 == Split(a1 + [sep] + b1, sep)[0];
    var n := |a1| + 1;
    assert b1 == (a1 + [sep] + b1)[n..];
  }

  /** Distinct integers have distinct decimal forms. */
  lemma IntToStringInjective(i: int, j: int)
    requires IntToString(i) == IntToString(j)
    ensures i == j
  {
    ParseIntToString(i);
    ParseIntToString(j);
  }

  /** Splitting undoes joining when no part holds the separator. */
  lemma {:induction false} SplitJoin(parts: seq<string>, sep: char)
    requires |parts| >= 1
    requires forall k :: 0 <= k < |parts| ==> sep !in parts[k]
    ensures Split(Join(parts, sep), sep) == parts
    decreases |parts|
  {
    if |parts| == 1 {
      SplitNoSeparator(parts[0], sep);
    } else {
      SplitJoin(parts[1..], sep);
      SplitSeparated(parts[0], sep, Join(parts[1..], sep));
    }
  }

  // ---------------------------------------------------------------- substring test

  /** `sub` occurs in `s` starting at index `i`. */
  predicate OccursAt(s: string, sub: string, i: int)
  {
    0 <= i && i + |sub| <= |s| && s[i..i + |sub|] == sub
  }

  /** Python's `sub in s` on strings. */
  function Contains(s: string, sub: string): (r: bool)
    ensures r <==> exists i :: OccursAt(s, sub, i)
    decreases |s|
  {
    if |sub| > |s| then false
    else if s[..|sub|] == sub then assert OccursAt(s, sub, 0); true
    else
      var r := Contains(s[1..], sub);
      assert forall i :: OccursAt(s[1..], sub, i) ==> OccursAt(s, sub, i + 1) by {
        forall i | OccursAt(s[1..], sub, i) ensures OccursAt(s, sub, i + 1) {
          assert s[1..][i..i + |sub|] == s[i + 1..i + 1 + |sub|];
        }
      }
      assert forall i :: OccursAt(s, sub, i) ==> OccursAt(s[1..], sub, i - 1) by {
        forall i | OccursAt(s, sub, i) ensures OccursAt(s[1..], sub, i - 1) {
          assert i != 0;
          assert s[1..][i - 1..i - 1 + |sub|] == s[i..i + |sub|];
        }
      }
      r
  }

  /** An occurrence anywhere inside `s` is an occurrence in `pre + s + post`. */
  lemma ContainsWithin(pre: string, s: string, post: string, sub: string)
    requires Contains(s, sub)
    ensures Contains(pre + s + post, sub)
  {
    var i :| OccursAt(s, sub, i);
    assert (pre + s + post)[|pre| + i..|pre| + i + |sub|] == s[i..i + |sub|];
    assert OccursAt(pre + s + post, sub, |pre| + i);
  }

  /** An occurrence of a `sep`-free pattern lies wholly on one side of a separator. */
  lemma OccurrenceSide(a: string, sep: char, b: string, sub: string, i: int)
    requires sep !in sub && OccursAt(a + [sep] + b, sub, i)
    ensures i + |sub| <= |a| || i > |a|
  {
    if i <= |a| < i + |sub| {
      SliceIndex(a + [sep] + b, i, i + |sub|, |a| - i);
      assert false;
    }
  }

  lemma SliceIndex(s: string, i: int, j: int, k: int)
    ensures 0 <= i <= j <= |s| && 0 <= k < j - i ==> s[i..j][k] == s[i + k]
  {
  }

  /** An occurrence around a separator is an occurrence in one of the two sides. */
  lemma OccurrenceAcrossSeparator(a: string, sep: char, b: string, sub: string, i: int)
    requires sep !in sub && OccursAt(a + [sep] + b, sub, i)
    ensures Contains(a, sub) || Contains(b, sub)
  {
    var s := a + [sep] + b;
    OccurrenceSide(a, sep, b, sub, i);
    if i + |sub| <= |a| {
      assert s[i..i + |sub|] == a[i..i + |sub|];
      assert OccursAt(a, sub, i);
    } else {
      var j := i - |a| - 1;
      assert s[i..i + |sub|] == b[j..j + |sub|];
      assert OccursAt(b, sub, j);
    }
  }

  /**
   * A non-empty pattern free of `sep` occurs around a separator exactly when
   * it occurs on one side of it.
   */
  lemma ContainsAcrossSeparator(a: string, sep: char, b: string, sub: string)
    requires sep !in sub
    ensures Contains(a + [sep] + b, sub) <==> Contains(a, sub) || Contains(b, sub)
  {
    if Contains(a + [sep] + b, sub) {
      var i :| OccursAt(a + [sep] + b, sub, i);
      OccurrenceAcrossSeparator(a, sep, b, sub, i);
    }
    if Contains(a, sub) {
      ContainsWithin([], a, [sep] + b, sub);
      assert [] + a + ([sep] + b) == a + [sep] + b;
    }
    if Contains(b, sub) {
      ContainsWithin(a + [sep], b, [], sub);
      assert a + [sep] + b + [] == a + [sep] + b;
    }
  }

  /** A pattern whose first character never appears in `s` does not occur in it. */
  lemma NotContainsForeign(s: string, sub: string)
    requires |sub| > 0 && sub[0] !in s
    ensures !Contains(s, sub)
  {
    forall i ensures !OccursAt(s, sub, i) {
      if 0 <= i && i + |sub| <= |s| {
        assert s[i..i + |sub|][0] == s[i];
      }
    }
  }
}
