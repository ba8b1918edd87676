/**
 * The FString operations the core relies on. Case-insensitive comparison folds
 * ASCII letters only.
 */
module Text {

  function ToLower(c: char): char
  {
    if 'A' <= c <= 'Z' then (c as int + 32) as char else c
  }

  predicate IsLetter(c: char)
  {
    'A' <= c <= 'Z' || 'a' <= c <= 'z'
  }

  lemma ToLowerNonLetter(c: char)
    requires !IsLetter(c)
    ensures ToLower(c) == c
    ensures forall d :: ToLower(d) == c ==> d == c
  {
  }

  function Lower(s: string): (r: string)
    ensures |r| == |s| && forall k :: 0 <= k < |s| ==> r[k] == ToLower(s[k])
  {
    seq(|s|, k requires 0 <= k < |s| => ToLower(s[k]))
  }

  /** `FString::Equals(.., ESearchCase::IgnoreCase)` and `FString::operator==`. */
  predicate EqualsIgnoreCase(a: string, b: string)
  {
    Lower(a) == Lower(b)
  }

  /** `FString::StartsWith`, whose default search is case-insensitive. */
  predicate StartsWithIgnoreCase(s: string, prefix: string)
  {
    |prefix| <= |s| && EqualsIgnoreCase(s[..|prefix|], prefix)
  }

  predicate EndsWith(s: string, suffix: string)
  {
    |suffix| <= |s| && s[|s| - |suffix|..] == suffix
  }

  /** Comparing against a string without letters ignores case trivially. */
  lemma EqualsIgnoreCaseNoLetters(a: string, b: string)
    requires forall k :: 0 <= k < |b| ==> !IsLetter(b[k])
    ensures EqualsIgnoreCase(a, b) <==> a == b
  {
    if EqualsIgnoreCase(a, b) {
      forall k | 0 <= k < |a| ensures a[k] == b[k] {
        assert Lower(a)[k] == Lower(b)[k];
        ToLowerNonLetter(b[k]);
      }
    }
  }

  /**
   * `FString::ReplaceInline(From, To)`: replaces every occurrence of `from`,
   * case-insensitively, scanning left to right without overlaps. An empty
   * `from` leaves the string alone.
   */
  function ReplaceAll(s: string, from: string, to: string): string
    decreases |s|
  {
    if |from| == 0 || |s| < |from| then s
    else if EqualsIgnoreCase(s[..|from|], from) then to + ReplaceAll(s[|from|..], from, to)
    else [s[0]] + ReplaceAll(s[1..], from, to)
  }

  /** Replacing the one non-letter character `c` by a text without `c` leaves no `c`. */
  lemma {:induction false} ReplaceAllRemovesChar(s: string, c: char, to: string)
    requires !IsLetter(c) && c !in to
    ensures c !in ReplaceAll(s, [c], to)
    decreases |s|
  {
    if |s| >= 1 {
      EqualsIgnoreCaseNoLetters(s[..1], [c]);
      ReplaceAllRemovesChar(s[1..], c, to);
    }
  }

  /** When the replacement starts like the pattern, the first character never changes. */
  lemma ReplaceAllFirst(s: string, from: string, to: string)
    requires |from| > 0 && |to| > 0 && to[0] == from[0]
    requires forall k :: 0 <= k < |from| ==> !IsLetter(from[k])
    requires |s| > 0
    ensures |ReplaceAll(s, from, to)| > 0 && ReplaceAll(s, from, to)[0] == s[0]
  {
    if |s| >= |from| && EqualsIgnoreCase(s[..|from|], from) {
      EqualsIgnoreCaseNoLetters(s[..|from|], from);
      assert s[0] == s[..|from|][0];
    }
  }

  /** No two consecutive dashes. */
  predicate NoDoubleDash(s: string)
  {
    forall k :: 0 <= k < |s| - 1 ==> !(s[k] == '-' && s[k + 1] == '-')
  }

  /** Every '1' directly follows a '-'. */
  predicate OnesFollowDash(s: string)
  {
    forall k :: 0 <= k < |s| && s[k] == '1' ==> k > 0 && s[k - 1] == '-'
  }

  /**
   * Turning every "--" of a text that has no '1' into "-1" leaves neither a "--"
   * nor a '1' that does not follow a '-'.
   */
  lemma {:induction false} CollapseDashes(s: string)
    requires '1' !in s
    ensures NoDoubleDash(ReplaceAll(s, "--", "-1"))
    ensures OnesFollowDash(ReplaceAll(s, "--", "-1"))
    decreases |s|
  {
    var r := ReplaceAll(s, "--", "-1");
    if |s| < 2 {
      assert r == s;
    } else if EqualsIgnoreCase(s[..2], "--") {
      var rest := ReplaceAll(s[2..], "--", "-1");
      assert '1' !in s[2..] by {
        forall k | 0 <= k < |s[2..]| ensures s[2..][k] != '1' { assert s[2..][k] == s[k + 2]; }
      }
      CollapseDashes(s[2..]);
      assert r == "-1" + rest;
      forall k | 0 <= k < |r| && r[k] == '1' ensures k > 0 && r[k - 1] == '-' {
        if k >= 2 {
          assert rest[k - 2] == '1';
        }
      }
      forall k | 0 <= k < |r| - 1 ensures !(r[k] == '-' && r[k + 1] == '-') {
        if k >= 2 {
          assert r[k] == rest[k - 2] && r[k + 1] == rest[k - 1];
        }
      }
    } else {
      var rest := ReplaceAll(s[1..], "--", "-1");
      assert '1' !in s[1..] by {
        forall k | 0 <= k < |s[1..]| ensures s[1..][k] != '1' { assert s[1..][k] == s[k + 1]; }
      }
      CollapseDashes(s[1..]);
      assert r == [s[0]] + rest;
      ReplaceAllFirst(s[1..], "--", "-1");
      EqualsIgnoreCaseNoLetters(s[..2], "--");
      assert !(s[0] == '-' && s[1] == '-');
      forall k | 0 <= k < |r| && r[k] == '1' ensures k > 0 && r[k - 1] == '-' {
        if k >= 1 {
          assert rest[k - 1] == '1';
        }
      }
      forall k | 0 <= k < |r| - 1 ensures !(r[k] == '-' && r[k + 1] == '-') {
        if k >= 1 {
          assert r[k] == rest[k - 1] && r[k + 1] == rest[k];
        }
      }
    }
  }

  // ---------------------------------------------------------------------
  // FString::FromInt for non-negative values.

  function Digit(d: nat): char
    requires d < 10
  {
    ('0' as int + d) as char
  }

  function NatToString(n: nat): (r: string)
    ensures |r| > 0
    ensures forall k :: 0 <= k < |r| ==> '0' <= r[k] <= '9'
  {
    if n < 10 then [Digit(n)] else NatToString(n / 10) + [Digit(n % 10)]
  }

  /** `FString::FromInt`: a minus sign before the digits of a negative number. */
  function IntToString(i: int): (r: string)
    ensures i >= 0 ==> r == NatToString(i)
    ensures i < 0 <==> |r| > 0 && r[0] == '-'
  {
    if i < 0 then "-" + NatToString(-i) else NatToString(i)
  }

  /** Decimal rendering is injective. */
  lemma {:induction false} NatToStringInjective(a: nat, b: nat)
    requires NatToString(a) == NatToString(b)
    ensures a == b
  {
    var sa, sb := NatToString(a), NatToString(b);
    if a < 10 && b < 10 {
      assert Digit(a) == sa[0] == sb[0] == Digit(b);
    } else if a >= 10 && b >= 10 {
      assert sa[|sa| - 1] == Digit(a % 10) && sb[|sb| - 1] == Digit(b % 10);
      assert NatToString(a / 10) == sa[..|sa| - 1] == sb[..|sb| - 1] == NatToString(b / 10);
      NatToStringInjective(a / 10, b / 10);
    }
  }

  lemma NatToStringIsInjective()
    ensures forall a: nat, b: nat :: NatToString(a) == NatToString(b) ==> a == b
  {
    forall a: nat, b: nat | NatToString(a) == NatToString(b) ensures a == b {
      NatToStringInjective(a, b);
    }
  }

  predicate AllDigits(s: string)
  {
    forall k :: 0 <= k < |s| ==> '0' <= s[k] <= '9'
  }

  lemma {:induction false} DigitsBeforeUnderscore(p1: string, q1: string, p2: string, q2: string)
    requires AllDigits(p1) && AllDigits(p2)
    requires p1 + "_" + q1 == p2 + "_" + q2
    ensures p1 == p2 && q1 == q2
  {
    var x := p1 + "_" + q1;
    var y := p2 + "_" + q2;
    assert x[|p1|] == '_' && y[|p2|] == '_';
    assert forall k :: 0 <= k < |p1| ==> x[k] == p1[k];
    assert forall k :: 0 <= k < |p2| ==> y[k] == p2[k];
    assert |p1| == |p2|;
    assert p1 == x[..|p1|] && p2 == y[..|p2|];
    assert q1 == x[|p1| + 1..] && q2 == y[|p2| + 1..];
  }

  /** `FString::Printf(TEXT("%s_%d"), ..)` over two indices is injective: digits hold no '_'. */
  lemma PairToStringInjective(a: nat, b: nat, c: nat, d: nat)
    requires NatToString(a) + "_" + NatToString(b) == NatToString(c) + "_" + NatToString(d)
    ensures a == c && b == d
  {
    DigitsBeforeUnderscore(NatToString(a), NatToString(b), NatToString(c), NatToString(d));
    NatToStringInjective(a, c);
    NatToStringInjective(b, d);
  }
}
