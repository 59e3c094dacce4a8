/**
 * The few Python string operations the extraction pipeline relies on:
 * `str.strip()`, `str.lower()`, `in` on strings, `str.startswith`,
 * `str.split(sep)` and the decimal rendering of an `int` in an f-string.
 */
module PyText {

  /** Python's `str.isspace()` on one character: the whitespace set `str.strip()` removes. */
  predicate IsSpace(c: char)
  {
    c in {' ', '\t', '\n', '\r', '\U{B}', '\U{C}', '\U{1C}', '\U{1D}', '\U{1E}', '\U{1F}',
          '\U{85}', '\U{A0}', '\U{1680}', '\U{2000}', '\U{2001}', '\U{2002}', '\U{2003}',
          '\U{2004}', '\U{2005}', '\U{2006}', '\U{2007}', '\U{2008}', '\U{2009}', '\U{200A}',
          '\U{2028}', '\U{2029}', '\U{202F}', '\U{205F}', '\U{3000}'}
  }

  function StripLeft(s: string): string
  {
    if |s| > 0 && IsSpace(s[0]) then StripLeft(s[1..]) else s
  }

  function StripRight(s: string): string
  {
    if |s| > 0 && IsSpace(s[|s| - 1]) then StripRight(s[..|s| - 1]) else s
  }

  /** `s.strip()`: `s` without its leading and trailing whitespace. */
  function Strip(s: string): string
  {
    StripRight(StripLeft(s))
  }

  /** `str.lower()` restricted to ASCII letters. */
  function LowerChar(c: char): char
  {
    if 'A' <= c <= 'Z' then (c as int - 'A' as int + 'a' as int) as char else c
  }

  function Lower(s: string): (r: string)
    ensures |r| == |s|
  {
    seq(|s|, i requires 0 <= i < |s| => LowerChar(s[i]))
  }

  /** `needle in hay` for strings: `needle` occurs as a contiguous piece of `hay`. */
  function Contains(hay: string, needle: string): bool
  {
    if needle <= hay then true
    else if hay == [] then false
    else Contains(hay[1..], needle)
  }

  /** `s.startswith(p)`. */
  predicate StartsWith(s: string, p: string)
  {
    p <= s
  }

  /** `s.split(sep)` for a one-character separator. */
  function Split(s: string, sep: char): (parts: seq<string>)
    ensures |parts| >= 1
  {
    if s == [] then [""]
    else
      var rest := Split(s[1..], sep);
      if s[0] == sep then [""] + rest else [[s[0]] + rest[0]] + rest[1..]
  }

  /** `sep.join(parts)`, the inverse of `Split`. */
  function Join(parts: seq<string>, sep: char): string
  {
    if parts == [] then ""
    else if |parts| == 1 then parts[0]
    else parts[0] + [sep] + Join(parts[1..], sep)
  }

  /** Number of occurrences of `c` in `s`. */
  function Count(s: string, c: char): nat
  {
    if s == [] then 0 else (if s[0] == c then 1 else 0) + Count(s[1..], c)
  }

  /** `[p.strip() for p in parts]`. */
  function StripAll(parts: seq<string>): (r: seq<string>)
    ensures |r| == |parts|
  {
    seq(|parts|, i requires 0 <= i < |parts| => Strip(parts[i]))
  }

  /** Concatenation of a sequence of strings, as `text += piece` in a loop. */
  function Concat(pieces: seq<string>): string
  {
    if pieces == [] then "" else Concat(pieces[..|pieces| - 1]) + pieces[|pieces| - 1]
  }

  function DigitChar(d: nat): char
    requires d < 10
  {
    ('0' as int + d) as char
  }

  /** `f"{n}"` for a non-negative integer. */
  function NatToString(n: nat): (r: string)
    ensures |r| >= 1
  {
    if n < 10 then [DigitChar(n)] else NatToString(n / 10) + [DigitChar(n % 10)]
  }

  predicate IsDigit(c: char)
  {
    '0' <= c <= '9'
  }

  function DigitValue(c: char): nat
    requires IsDigit(c)
  {
    c as int - '0' as int
  }

  /** The value of a string of decimal digits. */
  function DigitsValue(s: string): nat
    requires forall i :: 0 <= i < |s| ==> IsDigit(s[i])
  {
    if s == [] then 0 else DigitsValue(s[..|s| - 1]) * 10 + DigitValue(s[|s| - 1])
  }

  // ---------------------------------------------------------------------
  // Properties

  lemma {:induction false} StripLeftSuffix(s: string)
    ensures |StripLeft(s)| <= |s| && StripLeft(s) == s[|s| - |StripLeft(s)|..]
    ensures forall i :: 0 <= i < |s| - |StripLeft(s)| ==> IsSpace(s[i])
    ensures StripLeft(s) != [] ==> !IsSpace(StripLeft(s)[0])
  {
    if |s| > 0 && IsSpace(s[0]) {
      StripLeftSuffix(s[1..]);
    }
  }

  lemma {:induction false} StripRightPrefix(s: string)
    ensures |StripRight(s)| <= |s| && StripRight(s) == s[..|StripRight(s)|]
    ensures forall i :: |StripRight(s)| <= i < |s| ==> IsSpace(s[i])
    ensures StripRight(s) != [] ==> !IsSpace(StripRight(s)[|StripRight(s)| - 1])
  {
    if |s| > 0 && IsSpace(s[|s| - 1]) {
      StripRightPrefix(s[..|s| - 1]);
    }
  }

  /** `Strip` removes exactly the whitespace at both ends and nothing else. */
  lemma StripIsTrimmedSlice(s: string)
    ensures exists i, j :: 0 <= i <= j <= |s| && Strip(s) == s[i..j]
              && (forall k :: 0 <= k < i ==> IsSpace(s[k]))
              && (forall k :: j <= k < |s| ==> IsSpace(s[k]))
    ensures Strip(s) != [] ==> !IsSpace(Strip(s)[0]) && !IsSpace(Strip(s)[|Strip(s)| - 1])
  {
    var l := StripLeft(s);
    var r := StripRight(l);
    StripLeftSuffix(s);
    StripRightPrefix(l);
    var i := |s| - |l|;
    var j := i + |r|;
    assert r == s[i..j];
    if r != [] {
      assert r[0] == l[0] by { assert r == l[..|r|]; }
    }
  }

  /** Stripping twice is stripping once. */
  lemma StripIdempotent(s: string)
    ensures Strip(Strip(s)) == Strip(s)
  {
    var t := Strip(s);
    StripIsTrimmedSlice(s);
    if t != [] {
      assert !IsSpace(t[0]) && !IsSpace(t[|t| - 1]);
    }
  }

  /** `needle` occurs in `hay` starting at position `i`. */
  predicate OccursAt(hay: string, needle: string, i: nat)
  {
    i + |needle| <= |hay| && hay[i..i + |needle|] == needle
  }

  /** `Contains` is the textbook substring relation. */
  lemma ContainsIff(hay: string, needle: string)
    ensures Contains(hay, needle) <==> exists i: nat :: OccursAt(hay, needle, i)
  {
    if Contains(hay, needle) {
      ContainedSomewhere(hay, needle);
    } else {
      forall i: nat
        ensures !OccursAt(hay, needle, i)
      {
        if OccursAt(hay, needle, i) {
          OccurrenceContained(hay, needle, i);
        }
      }
    }
  }

  lemma {:induction false} ContainedSomewhere(hay: string, needle: string)
    requires Contains(hay, needle)
    ensures exists i: nat :: OccursAt(hay, needle, i)
  {
    if needle <= hay {
      assert hay[0..|needle|] == needle;
      assert OccursAt(hay, needle, 0);
    } else {
      var t := hay[1..];
      ContainedSomewhere(t, needle);
      var i: nat :| OccursAt(t, needle, i);
      assert hay[i + 1..i + 1 + |needle|] == t[i..i + |needle|];
      assert OccursAt(hay, needle, i + 1);
    }
  }

  /** Joining the pieces of a split with the same separator gives back the string. */
  lemma {:induction false} JoinSplit(s: string, sep: char)
    ensures Join(Split(s, sep), sep) == s
  {
    if s != [] {
      var rest := Split(s[1..], sep);
      JoinSplit(s[1..], sep);
      if s[0] == sep {
        assert Split(s, sep) == [""] + rest;
        assert ([""] + rest)[1..] == rest;
      } else {
        var parts := [[s[0]] + rest[0]] + rest[1..];
        assert Split(s, sep) == parts;
        if |rest| == 1 {
          assert Join(rest, sep) == rest[0];
        } else {
          assert parts[1..] == rest[1..];
          assert Join(rest, sep) == rest[0] + [sep] + Join(rest[1..], sep);
        }
      }
    }
  }

  /** Every piece of a split is free of the separator, and there is one more piece than separators. */
  lemma {:induction false} SplitPieces(s: string, sep: char)
    ensures |Split(s, sep)| == Count(s, sep) + 1
    ensures forall k :: 0 <= k < |Split(s, sep)| ==> sep !in Split(s, sep)[k]
  {
    if s != [] {
      SplitPieces(s[1..], sep);
      var rest := Split(s[1..], sep);
      if s[0] != sep {
        var parts := Split(s, sep);
        assert parts[0] == [s[0]] + rest[0];
        forall k | 0 <= k < |parts| ensures sep !in parts[k] {
          if k > 0 { assert parts[k] == rest[k]; }
        }
      }
    }
  }

  /** The separator occurs in `s` exactly when `Split` cuts it into two pieces or more. */
  lemma {:induction false} SplitSeparates(s: string, sep: char)
    ensures sep in s <==> |Split(s, sep)| >= 2
  {
    SplitPieces(s, sep);
    CountPositive(s, sep);
  }

  lemma {:induction false} CountPositive(s: string, c: char)
    ensures c in s <==> Count(s, c) > 0
  {
    if s != [] {
      CountPositive(s[1..], c);
      assert s == [s[0]] + s[1..];
    }
  }

  /** `Lower(t)` starts with a lower-case `d` exactly when `t` starts with `d` or `D`. */
  lemma LowerStartsWithD(t: string)
    ensures StartsWith(Lower(t), "d") <==> |t| > 0 && (t[0] == 'd' || t[0] == 'D')
  {
    if |t| > 0 {
      assert Lower(t)[0] == LowerChar(t[0]);
    }
  }

  /** Ten to the power `k`. */
  function Pow10(k: nat): (r: nat)
    ensures r >= 1
  {
    if k == 0 then 1 else 10 * Pow10(k - 1)
  }

  /** The decimal rendering of `n` has at most `k + 1` digits exactly when `n` is below 10 to the `k + 1`. */
  lemma {:induction false} NatToStringLength(n: nat, k: nat)
    ensures |NatToString(n)| <= k + 1 <==> n < Pow10(k + 1)
  {
    if n < 10 {
      assert Pow10(k + 1) == 10 * Pow10(k);
    } else if k == 0 {
      assert |NatToString(n)| == |NatToString(n / 10)| + 1;
    } else {
      NatToStringLength(n / 10, k - 1);
      assert |NatToString(n)| == |NatToString(n / 10)| + 1;
      assert Pow10(k + 1) == 10 * Pow10(k);
      assert 10 * (n / 10) <= n < 10 * (n / 10) + 10;
    }
  }

  /** The decimal rendering uses digits only and reads back as the number. */
  lemma {:induction false} NatToStringDigits(n: nat)
    ensures forall i :: 0 <= i < |NatToString(n)| ==> IsDigit(NatToString(n)[i])
    ensures DigitsValue(NatToString(n)) == n
  {
    var r := NatToString(n);
    if n >= 10 {
      NatToStringDigits(n / 10);
      assert r[..|r| - 1] == NatToString(n / 10);
    } else {
      assert r[..0] == "";
    }
  }

  /** Splitting at a separator placed between two texts splits each text separately. */
  lemma {:induction false} SplitAppend(a: string, b: string, sep: char)
    ensures Split(a + [sep] + b, sep) == Split(a, sep) + Split(b, sep)
  {
    var s := a + [sep] + b;
    if a == [] {
      assert s == [sep] + b;
      assert s[1..] == b;
    } else {
      assert s[1..] == a[1..] + [sep] + b;
      SplitAppend(a[1..], b, sep);
      SplitConsAppend(a, b, s, sep);
    }
  }

  /** The inductive step of `SplitAppend`: one more leading character. */
  lemma {:induction false} SplitConsAppend(a: string, b: string, s: string, sep: char)
    requires a != [] && s == a + [sep] + b
    requires Split(s[1..], sep) == Split(a[1..], sep) + Split(b, sep)
    ensures Split(s, sep) == Split(a, sep) + Split(b, sep)
  {
    assert s[0] == a[0];
    var left, right := Split(a[1..], sep), Split(b, sep);
    var rest := Split(s[1..], sep);
    if a[0] == sep {
      assert Split(s, sep) == [""] + rest;
      assert Split(a, sep) == [""] + left;
      AppendAssoc([""], left, right);
    } else {
      var head := [[a[0]] + left[0]];
      assert rest[0] == left[0];
      assert rest[1..] == left[1..] + right;
      assert Split(s, sep) == head + rest[1..];
      assert Split(a, sep) == head + left[1..];
      AppendAssoc(head, left[1..], right);
    }
  }

  lemma AppendAssoc<T>(a: seq<T>, b: seq<T>, c: seq<T>)
    ensures a + b + c == a + (b + c)
  {
  }

  /** A text without the separator is a single piece. */
  lemma {:induction false} SplitWithoutSeparator(s: string, sep: char)
    requires sep !in s
    ensures Split(s, sep) == [s]
  {
    if s != [] {
      SplitWithoutSeparator(s[1..], sep);
      assert [s[0]] + s[1..] == s;
    }
  }

  /** Neither end of `x` is whitespace. */
  predicate Trimmed(x: string)
  {
    x == [] || (!IsSpace(x[0]) && !IsSpace(x[|x| - 1]))
  }

  lemma {:induction false} StripRightTrailingSpace(x: string)
    requires Trimmed(x)
    ensures StripRight(x + " ") == x
  {
    assert (x + " ")[..|x|] == x;
  }

  /** A trimmed text padded with one space on each side strips back to itself. */
  lemma StripPadded(x: string)
    requires Trimmed(x)
    ensures Strip(" " + x + " ") == x
    ensures Strip(x + " ") == x
    ensures Strip(" " + x) == x
  {
    assert (" " + x + " ")[1..] == x + " ";
    assert (" " + x)[1..] == x;
    StripRightTrailingSpace(x);
    if x == [] {
      assert StripLeft(" ") == "";
    } else {
      assert (x + " ")[0] == x[0];
      assert StripLeft(x + " ") == x + " ";
      assert StripLeft(" " + x + " ") == x + " ";
      assert StripLeft(" " + x) == StripLeft(x) == x;
    }
  }

  /** `s.endswith(p)`. */
  predicate EndsWith(s: string, p: string)
  {
    |p| <= |s| && s[|s| - |p|..] == p
  }

  /** A needle whose first character never occurs in the text is not contained in it. */
  lemma {:induction false} NotContainedWithoutFirst(hay: string, needle: string)
    requires |needle| > 0 && needle[0] !in hay
    ensures !Contains(hay, needle)
  {
    if hay != [] {
      assert hay[0] != needle[0];
      assert !(needle <= hay);
      assert forall c :: c in hay[1..] ==> c in hay;
      NotContainedWithoutFirst(hay[1..], needle);
    } else {
      assert !(needle <= hay);
    }
  }

  /** An occurrence at a known position makes the needle contained. */
  lemma {:induction false} OccurrenceContained(hay: string, needle: string, i: nat)
    requires OccursAt(hay, needle, i)
    ensures Contains(hay, needle)
  {
    if i == 0 {
      assert hay[..|needle|] == needle;
    } else {
      var t := hay[1..];
      assert t[i - 1..i - 1 + |needle|] == hay[i..i + |needle|];
      OccurrenceContained(t, needle, i - 1);
    }
  }
}
