/** String building used for chart ids, heatmap row keys and workload labels: decimal
    rendering of an integer thread count, ASCII upper-casing, and the workload label rule.
    The rendering is the plain decimal one; the cases where JavaScript or Python print a
    number differently are listed in the README. */
module Text {
  import Seqs

  predicate IsDigit(c: char) {
    '0' <= c <= '9'
  }

  /** The decimal digit character for `d`. */
  function DigitChar(d: nat): (c: char)
    requires d < 10
    ensures IsDigit(c)
    ensures c as int - '0' as int == d
  {
    (d + '0' as int) as char
  }

  /** The value of a string of decimal digits, read from the left (`parseInt` on digits);
      the empty string is worth 0. */
  function DigitsValue(s: string): nat
    decreases |s|
  {
    if |s| == 0 then 0
    else DigitsValue(s[..|s| - 1]) * 10 + (if IsDigit(s[|s| - 1]) then s[|s| - 1] as int - '0' as int else 0)
  }

  /** The value of a rendered integer: a leading `-` negates the digits after it. */
  function IntValue(s: string): int {
    if |s| > 0 && s[0] == '-' then -(DigitsValue(s[1..]) as int) else DigitsValue(s) as int
  }

  /** Decimal rendering of a natural number, without leading zeros. */
  function NatToString(n: nat): (s: string)
    ensures |s| >= 1
    ensures forall i :: 0 <= i < |s| ==> IsDigit(s[i])
    ensures n < 10 <==> |s| == 1
    decreases n
  {
    if n < 10 then [DigitChar(n)] else NatToString(n / 10) + [DigitChar(n % 10)]
  }

  /** Decimal rendering of an integer (`${n}` in JavaScript, `f"{n}"` in Python). */
  function IntToString(n: int): (s: string)
    ensures |s| >= 1
    ensures forall i :: 0 <= i < |s| ==> IsDigit(s[i]) || (i == 0 && s[i] == '-')
    ensures s[0] == '-' <==> n < 0
  {
    if n < 0 then "-" + NatToString(-n) else NatToString(n)
  }

  /** Reading the digits of a rendered natural number back gives the number, and only `0`
      starts with the digit `0`. */
  lemma {:induction false} NatToStringValue(n: nat)
    ensures DigitsValue(NatToString(n)) == n
    ensures n > 0 ==> NatToString(n)[0] != '0'
    decreases n
  {
    if n >= 10 {
      var s := NatToString(n);
      NatToStringValue(n / 10);
      assert s[..|s| - 1] == NatToString(n / 10);
      assert s[0] == NatToString(n / 10)[0];
    }
  }

  /** Reading a rendered integer back gives the integer; the digits after the sign have no
      leading zero. */
  lemma IntToStringValue(n: int)
    ensures IntValue(IntToString(n)) == n
    ensures |IntToString(n)| > 1 && n >= 0 ==> IntToString(n)[0] != '0'
    ensures n < 0 ==> IntToString(n)[1] != '0'
  {
    if n < 0 {
      NatToStringValue(-n);
      assert IntToString(n)[1..] == NatToString(-n);
    } else {
      NatToStringValue(n);
    }
  }

  /** For example, the thread counts of the dashboard render as `1`, `4`, `8` and `16`. */
  lemma ThreadCountStrings()
    ensures IntToString(1) == "1" && IntToString(4) == "4" && IntToString(8) == "8"
    ensures IntToString(16) == "16"
  {
    assert NatToString(16) == NatToString(1) + [DigitChar(6)];
  }

  /** Different natural numbers render differently. */
  lemma {:induction false} NatToStringInjective(a: nat, b: nat)
    requires NatToString(a) == NatToString(b)
    ensures a == b
    decreases a
  {
    var sa, sb := NatToString(a), NatToString(b);
    if a >= 10 {
      assert |sb| == |sa| >= 2;
      assert NatToString(a / 10) == sa[..|sa| - 1] == sb[..|sb| - 1] == NatToString(b / 10);
      assert DigitChar(a % 10) == sa[|sa| - 1] == sb[|sb| - 1] == DigitChar(b % 10);
      NatToStringInjective(a / 10, b / 10);
    } else {
      assert DigitChar(a) == sa[0] == sb[0];
      assert b < 10;
    }
  }

  /** Different integers render differently. */
  lemma IntToStringInjective(a: int, b: int)
    requires IntToString(a) == IntToString(b)
    ensures a == b
  {
    if a < 0 {
      assert IntToString(a)[1..] == NatToString(-a);
      assert IntToString(b)[1..] == NatToString(-b);
      NatToStringInjective(-a, -b);
    } else {
      NatToStringInjective(a, b);
    }
  }

  /** The word characters of a JavaScript regular expression without the `u` flag (`\w`). */
  predicate IsWordChar(c: char) {
    ('a' <= c <= 'z') || ('A' <= c <= 'Z') || IsDigit(c) || c == '_'
  }

  /** ASCII upper-casing of one character; other characters are unchanged. */
  function UpperChar(c: char): (u: char)
    ensures 'a' <= c <= 'z' ==> u as int == c as int - 32 && 'A' <= u <= 'Z'
    ensures !('a' <= c <= 'z') ==> u == c
  {
    if 'a' <= c <= 'z' then (c as int - 32) as char else c
  }

  /** Upper-cases every ASCII letter (`toUpperCase` on the fixed database names). */
  function UpperCase(s: string): (u: string)
    ensures |u| == |s|
    ensures forall i :: 0 <= i < |s| ==> u[i] == UpperChar(s[i])
  {
    Seqs.Map(s, UpperChar)
  }

  /** Replaces only the first occurrence of `from` by `to`, as `String.prototype.replace`
      does when given a string pattern. */
  function ReplaceFirst(s: string, from: char, to: char): (r: string)
    ensures |r| == |s|
    decreases |s|
  {
    if |s| == 0 then s
    else if s[0] == from then [to] + s[1..]
    else [s[0]] + ReplaceFirst(s[1..], from, to)
  }

  /** A string without `from` is unchanged; otherwise exactly the first occurrence of
      `from` becomes `to`. */
  lemma {:induction false} ReplaceFirstSpec(s: string, from: char, to: char)
    ensures from !in s ==> ReplaceFirst(s, from, to) == s
    ensures from in s ==>
      && ReplaceFirst(s, from, to)[Seqs.FirstIndex(s, from)] == to
      && forall i :: 0 <= i < |s| && i != Seqs.FirstIndex(s, from) ==> ReplaceFirst(s, from, to)[i] == s[i]
    decreases |s|
  {
    if |s| > 0 && s[0] != from {
      ReplaceFirstSpec(s[1..], from, to);
      assert s == [s[0]] + s[1..];
    }
  }

  /** True when position `i` starts a word: a word character with no word character before
      it (the regular expression `\b\w`). */
  predicate StartsWord(s: string, i: int)
    requires 0 <= i < |s|
  {
    IsWordChar(s[i]) && (i == 0 || !IsWordChar(s[i - 1]))
  }

  /** Upper-cases each word-initial character (`replace(/\b\w/g, l => l.toUpperCase())`). */
  function TitleCase(s: string): (r: string)
    ensures |r| == |s|
    ensures forall i :: 0 <= i < |s| ==> r[i] == if StartsWord(s, i) then UpperChar(s[i]) else s[i]
  {
    seq(|s|, i requires 0 <= i < |s| => if StartsWord(s, i) then UpperChar(s[i]) else s[i])
  }

  /** The regular expression's scan from left to right: `afterWord` says whether the
      previous character was a word character, and a word character after a non-word one
      (or at the start) is upper-cased. */
  function TitleScan(s: string, afterWord: bool): string
    decreases |s|
  {
    if |s| == 0 then []
    else [if IsWordChar(s[0]) && !afterWord then UpperChar(s[0]) else s[0]] + TitleScan(s[1..], IsWordChar(s[0]))
  }

  /** Scanning from the start equals the positionwise word-start rule. */
  lemma TitleCaseScan(s: string)
    ensures TitleScan(s, false) == TitleCase(s)
  {
    TitleScanFrom(s, 0);
    assert s[0..] == s;
  }

  /** The scan of the suffix from `k`, started with the word state of position `k - 1`, is
      the suffix of `TitleCase`. */
  lemma {:induction false} TitleScanFrom(s: string, k: nat)
    requires k <= |s|
    ensures TitleScan(s[k..], k > 0 && IsWordChar(s[k - 1])) == TitleCase(s)[k..]
    decreases |s| - k
  {
    if k < |s| {
      TitleScanFrom(s, k + 1);
      assert s[k..][1..] == s[k + 1..];
      assert TitleCase(s)[k..] == [TitleCase(s)[k]] + TitleCase(s)[k + 1..];
    }
  }

  /** The display label of a workload name: the first underscore becomes a space, then each
      word is capitalised. */
  function FormatLabel(name: string): (r: string)
    ensures |r| == |name|
  {
    TitleCase(ReplaceFirst(name, '_', ' '))
  }

  /** Upper-casing keeps a character a word character, and keeps a non-word character one. */
  lemma UpperCharKeepsWordness(c: char)
    ensures IsWordChar(UpperChar(c)) == IsWordChar(c)
  {
  }

  /** Capitalising words is idempotent: the word boundaries do not move. */
  lemma TitleCaseIdempotent(s: string)
    ensures TitleCase(TitleCase(s)) == TitleCase(s)
  {
    var t := TitleCase(s);
    forall i | 0 <= i < |s|
      ensures StartsWord(t, i) == StartsWord(s, i)
    {
      UpperCharKeepsWordness(s[i]);
      if i > 0 {
        UpperCharKeepsWordness(s[i - 1]);
      }
    }
    forall i | 0 <= i < |s|
      ensures TitleCase(t)[i] == t[i]
    {
      UpperCharKeepsWordness(s[i]);
    }
  }

  predicate IsLowerWord(w: string) {
    |w| > 0 && forall i :: 0 <= i < |w| ==> 'a' <= w[i] <= 'z'
  }

  /** Capitalises the first letter of a word. */
  function Capitalise(w: string): string
    requires |w| > 0
  {
    [UpperChar(w[0])] + w[1..]
  }

  /** A name of two lower-case words joined by an underscore, such as `read_heavy`, is
      labelled with both words capitalised and a space between them. */
  lemma FormatLabelTwoWords(a: string, b: string)
    requires IsLowerWord(a) && IsLowerWord(b)
    ensures FormatLabel(a + "_" + b) == Capitalise(a) + " " + Capitalise(b)
  {
    ReplaceJoin(a, b);
    TitleCaseTwoWords(a, b);
  }

  /** The underscore after a prefix without one becomes a space. */
  lemma {:induction false} ReplaceJoin(a: string, b: string)
    requires forall i :: 0 <= i < |a| ==> a[i] != '_'
    ensures ReplaceFirst(a + "_" + b, '_', ' ') == a + " " + b
    decreases |a|
  {
    var s := a + "_" + b;
    if |a| == 0 {
      assert s == "_" + b;
      assert s[1..] == b;
    } else {
      assert s[0] == a[0];
      assert s[1..] == a[1..] + "_" + b;
      ReplaceJoin(a[1..], b);
      assert a + " " + b == [a[0]] + (a[1..] + " " + b);
    }
  }

  /** Two lower-case words separated by a space are both capitalised. */
  lemma TitleCaseTwoWords(a: string, b: string)
    requires IsLowerWord(a) && IsLowerWord(b)
    ensures TitleCase(a + " " + b) == Capitalise(a) + " " + Capitalise(b)
  {
    var t := a + " " + b;
    var want := Capitalise(a) + " " + Capitalise(b);
    forall i | 0 <= i < |t|
      ensures TitleCase(t)[i] == want[i]
    {
      if i < |a| {
        assert t[i] == a[i];
        assert i > 0 ==> t[i - 1] == a[i - 1];
      } else if i > |a| + 1 {
        assert t[i] == b[i - |a| - 1];
        assert t[i - 1] == b[i - |a| - 2];
      }
    }
  }

  /** Only the first underscore becomes a space: after a prefix without one, every later
      underscore is kept. */
  lemma FormatLabelFirstUnderscoreOnly(a: string, b: string)
    requires forall i :: 0 <= i < |a| ==> a[i] != '_'
    ensures FormatLabel(a + "_" + b) == TitleCase(a + " " + b)
    ensures forall i :: 0 <= i < |b| && b[i] == '_' ==> FormatLabel(a + "_" + b)[|a| + 1 + i] == '_'
  {
    ReplaceJoin(a, b);
    var t := a + " " + b;
    forall i | 0 <= i < |b| && b[i] == '_'
      ensures TitleCase(t)[|a| + 1 + i] == '_'
    {
      assert t[|a| + 1 + i] == b[i];
    }
  }

  /** For example `a_b_c` is labelled `A B_c`. */
  lemma FormatLabelSample()
    ensures FormatLabel("a_b_c") == "A B_c"
  {
    assert "a_b_c" == "a" + "_" + "b_c";
    FormatLabelFirstUnderscoreOnly("a", "b_c");
    TitleCaseSample();
  }

  lemma TitleCaseSample()
    ensures TitleCase("a b_c") == "A B_c"
  {
    var t := "a b_c";
    assert StartsWord(t, 0) && !StartsWord(t, 1) && StartsWord(t, 2);
    assert !StartsWord(t, 3) && !StartsWord(t, 4);
    var r := TitleCase(t);
    assert r[0] == UpperChar('a') == 'A';
    assert r[2] == UpperChar('b') == 'B';
  }
}
