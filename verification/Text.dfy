/** Decimal rendering of integers, as used when order identifiers and position keys are formatted. */
module Text {

  function Digit(d: nat): (c: char)
    requires d < 10
    ensures '0' <= c <= '9'
  {
    "0123456789"[d]
  }

  /** The decimal digits of `n`, most significant first, without padding. */
  function Decimal(n: nat): (s: string)
    ensures |s| > 0 && (|s| == 1 <==> n < 10)
    ensures forall i :: 0 <= i < |s| ==> '0' <= s[i] <= '9'
  {
    if n < 10 then [Digit(n)] else Decimal(n / 10) + [Digit(n % 10)]
  }

  /** Signed decimal rendering. */
  function SignedDecimal(n: int): (s: string)
    ensures |s| > 0
    ensures forall i :: 0 <= i < |s| ==> s[i] == '-' || '0' <= s[i] <= '9'
  {
    if n < 0 then "-" + Decimal(-n) else Decimal(n)
  }

  lemma DigitInjective(a: nat, b: nat)
    requires a < 10 && b < 10 && Digit(a) == Digit(b)
    ensures a == b
  {
  }

  lemma {:induction false} DecimalInjective(m: nat, n: nat)
    requires Decimal(m) == Decimal(n)
    ensures m == n
  {
    var s, t := Decimal(m), Decimal(n);
    if m < 10 && n < 10 {
      assert s[0] == Digit(m) && t[0] == Digit(n);
      DigitInjective(m, n);
    } else if m >= 10 && n >= 10 {
      assert s[|s| - 1] == Digit(m % 10) && t[|t| - 1] == Digit(n % 10);
      DigitInjective(m % 10, n % 10);
      assert s[..|s| - 1] == Decimal(m / 10) && t[..|t| - 1] == Decimal(n / 10);
      DecimalInjective(m / 10, n / 10);
    }
  }

  lemma SignedDecimalInjective(m: int, n: int)
    requires SignedDecimal(m) == SignedDecimal(n)
    ensures m == n
  {
    var s, t := SignedDecimal(m), SignedDecimal(n);
    assert m < 0 <==> s[0] == '-';
    assert n < 0 <==> t[0] == '-';
    if m < 0 {
      assert s[1..] == Decimal(-m) && t[1..] == Decimal(-n);
      DecimalInjective(-m, -n);
    } else {
      DecimalInjective(m, n);
    }
  }

  /** Two strings of the form `head + sep + tail` whose tails are free of the separator split alike. */
  lemma SplitAtLastSeparator(a: string, b: string, x: string, y: string, sep: char)
    requires sep !in x && sep !in y
    requires a + [sep] + x == b + [sep] + y
    ensures a == b && x == y
  {
    var s, t := a + [sep] + x, b + [sep] + y;
    assert s[|a|] == sep && t[|b|] == sep;
    assert forall i :: |a| < i < |s| ==> s[i] == x[i - |a| - 1] && s[i] != sep;
    assert forall i :: |b| < i < |t| ==> t[i] == y[i - |b| - 1] && t[i] != sep;
    assert |a| == |b|;
    assert s[..|a|] == a && t[..|b|] == b;
    assert s[|a| + 1..] == x && t[|b| + 1..] == y;
  }

  function UpperChar(c: char): char
  {
    if 'a' <= c <= 'z' then ((c as int) - 32) as char else c
  }

  /** ASCII upper-casing. */
  function ToUpper(s: string): (t: string)
    ensures |t| == |s| && forall i :: 0 <= i < |s| ==> t[i] == UpperChar(s[i])
  {
    seq(|s|, i requires 0 <= i < |s| => UpperChar(s[i]))
  }

  predicate IsSpace(c: char)
  {
    c == ' ' || 9 <= c as int <= 13
  }

  /** Removal of leading and trailing (ASCII) white space. */
  function TrimSpace(s: string): string
  {
    if s == "" then ""
    else if IsSpace(s[0]) then TrimSpace(s[1..])
    else if IsSpace(s[|s| - 1]) then TrimSpace(s[..|s| - 1])
    else s
  }

  /** `x` occurs in `s` as a substring. */
  predicate Contains(s: string, x: string)
  {
    x <= s || (s != [] && Contains(s[1..], x))
  }

  predicate OccursAt(s: string, x: string, i: int)
  {
    0 <= i <= |s| && x <= s[i..]
  }

  lemma {:induction false} ContainsMeaning(s: string, x: string)
    ensures Contains(s, x) <==> exists i :: OccursAt(s, x, i)
  {
    if x <= s {
      assert s[0..] == s;
      assert OccursAt(s, x, 0);
    } else if s != [] {
      var rest := s[1..];
      ContainsMeaning(rest, x);
      if i :| OccursAt(rest, x, i) {
        assert rest[i..] == s[i + 1..];
        assert OccursAt(s, x, i + 1);
      }
      if i :| OccursAt(s, x, i) {
        assert s[0..] == s;
        assert i > 0 && s[i..] == rest[i - 1..];
        assert OccursAt(rest, x, i - 1);
      }
    }
  }

  /** Trimming removes white space at both ends and nothing else. */
  lemma {:induction false} TrimMeaning(s: string) returns (i: nat, j: nat)
    ensures i <= j <= |s| && TrimSpace(s) == s[i..j]
    ensures forall k :: 0 <= k < i || j <= k < |s| ==> IsSpace(s[k])
    ensures i < j ==> !IsSpace(s[i]) && !IsSpace(s[j - 1])
  {
    if s == "" {
      i, j := 0, 0;
    } else if IsSpace(s[0]) {
      i, j := TrimMeaning(s[1..]);
      assert s[1..][i..j] == s[i + 1..j + 1];
      assert forall k :: 0 < k < |s| ==> s[k] == s[1..][k - 1];
      i, j := i + 1, j + 1;
    } else if IsSpace(s[|s| - 1]) {
      i, j := TrimMeaning(s[..|s| - 1]);
      assert s[..|s| - 1][i..j] == s[i..j];
    } else {
      i, j := 0, |s|;
    }
  }

  lemma {:induction false} TrimmedEnds(s: string)
    ensures var t := TrimSpace(s); t != "" ==> !IsSpace(t[0]) && !IsSpace(t[|t| - 1])
  {
    if s != "" {
      if IsSpace(s[0]) {
        TrimmedEnds(s[1..]);
      } else if IsSpace(s[|s| - 1]) {
        TrimmedEnds(s[..|s| - 1]);
      }
    }
  }

  /** Upper-casing a trimmed text gives a text that both operations leave alone. */
  lemma UpperTrimStable(s: string)
    ensures var u := ToUpper(TrimSpace(s)); TrimSpace(u) == u && ToUpper(u) == u
  {
    TrimmedEnds(s);
    var u := ToUpper(TrimSpace(s));
    assert u != "" ==> !IsSpace(u[0]) && !IsSpace(u[|u| - 1]);
  }

  // ---------------------------------------------------------------------------------------
  // Numbered identifiers
  // ---------------------------------------------------------------------------------------

  function OrderUid(prefix: string, n: nat): string
  {
    prefix + "_" + Decimal(n)
  }

  lemma OrderUidInjective(prefix: string, m: nat, n: nat)
    requires OrderUid(prefix, m) == OrderUid(prefix, n)
    ensures m == n
  {
    hide Decimal;
    var p, x, y := prefix + "_", Decimal(m), Decimal(n);
    assert (p + x)[|p|..] == x && (p + y)[|p|..] == y;
    DecimalInjective(m, n);
  }

  /** Identifiers numbered consecutively from `first`. */
  ghost predicate Numbered(uids: seq<string>, prefix: string, first: nat)
  {
    forall k :: 0 <= k < |uids| ==> uids[k] == OrderUid(prefix, first + k)
  }

  lemma NumberedConcat(xs: seq<string>, ys: seq<string>, prefix: string, first: nat)
    requires Numbered(xs, prefix, first) && Numbered(ys, prefix, first + |xs|)
    ensures Numbered(xs + ys, prefix, first)
  {
    hide OrderUid;
    forall k | 0 <= k < |xs + ys| ensures (xs + ys)[k] == OrderUid(prefix, first + k) {
      if k >= |xs| {
        assert ys[k - |xs|] == OrderUid(prefix, first + |xs| + (k - |xs|));
      }
    }
  }

  lemma NumberedDistinct(uids: seq<string>, prefix: string, first: nat)
    requires Numbered(uids, prefix, first)
    ensures forall i, k :: 0 <= i < k < |uids| ==> uids[i] != uids[k]
  {
    hide OrderUid;
    forall i, k | 0 <= i < k < |uids| ensures uids[i] != uids[k] {
      if OrderUid(prefix, first + i) == OrderUid(prefix, first + k) {
        OrderUidInjective(prefix, first + i, first + k);
      }
    }
  }
}
