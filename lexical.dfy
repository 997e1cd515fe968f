/**
 * Python's ordering on `str`: characters are compared by code point from the
 * left, and a proper prefix sorts before the longer string. options_scanner.py
 * relies on it twice: `sort_values('contract_id')` and the ISO date comparisons
 * of the earliest-expiration filter.
 */
module Lexical {

  /** `a <= b` on Python strings. */
  predicate LexLe(a: string, b: string)
  {
    |a| == 0 || (|b| > 0 && (a[0] < b[0] || (a[0] == b[0] && LexLe(a[1..], b[1..]))))
  }

  /** `a < b` on Python strings. */
  predicate LexLt(a: string, b: string)
  {
    !LexLe(b, a)
  }

  /** The textbook definition: `a` is a prefix of `b`, or they first differ at a smaller character of `a`. */
  ghost predicate PrefixOrFirstDifferenceSmaller(a: string, b: string)
  {
    (|a| <= |b| && a == b[..|a|]) ||
    exists k :: 0 <= k < |a| && k < |b| && a[..k] == b[..k] && a[k] < b[k]
  }

  lemma {:induction false} LexLeMatchesDefinition(a: string, b: string)
    ensures LexLe(a, b) <==> PrefixOrFirstDifferenceSmaller(a, b)
  {
    if |a| == 0 {
      assert a == b[..0];
    } else if |b| == 0 {
      assert !PrefixOrFirstDifferenceSmaller(a, b);
    } else if a[0] < b[0] {
      assert a[..0] == b[..0];
    } else if a[0] > b[0] {
      assert a[..1] != b[..1];
    } else {
      LexLeMatchesDefinition(a[1..], b[1..]);
      DefinitionOfTails(a, b);
    }
  }

  /** With equal first characters, the definition holds of two strings exactly when it holds of their tails. */
  lemma DefinitionOfTails(a: string, b: string)
    requires |a| > 0 && |b| > 0 && a[0] == b[0]
    ensures PrefixOrFirstDifferenceSmaller(a, b) <==> PrefixOrFirstDifferenceSmaller(a[1..], b[1..])
  {
    if PrefixOrFirstDifferenceSmaller(a, b) {
      TailOfDefinition(a, b);
    }
    if PrefixOrFirstDifferenceSmaller(a[1..], b[1..]) {
      ConsOfDefinition(a, b);
    }
  }

  lemma TailOfDefinition(a: string, b: string)
    requires |a| > 0 && |b| > 0 && a[0] == b[0]
    requires PrefixOrFirstDifferenceSmaller(a, b)
    ensures PrefixOrFirstDifferenceSmaller(a[1..], b[1..])
  {
    if |a| <= |b| && a == b[..|a|] {
      assert a[1..] == b[1..][..|a[1..]|];
    } else {
      var k :| 0 <= k < |a| && k < |b| && a[..k] == b[..k] && a[k] < b[k];
      assert k > 0;
      assert a[1..][..k - 1] == a[..k][1..] == b[..k][1..] == b[1..][..k - 1];
      assert a[1..][k - 1] < b[1..][k - 1];
    }
  }

  lemma ConsOfDefinition(a: string, b: string)
    requires |a| > 0 && |b| > 0 && a[0] == b[0]
    requires PrefixOrFirstDifferenceSmaller(a[1..], b[1..])
    ensures PrefixOrFirstDifferenceSmaller(a, b)
  {
    if |a[1..]| <= |b[1..]| && a[1..] == b[1..][..|a[1..]|] {
      assert a == [a[0]] + a[1..] == [b[0]] + b[1..][..|a| - 1] == b[..|a|];
    } else {
      var k :| 0 <= k < |a[1..]| && k < |b[1..]| && a[1..][..k] == b[1..][..k] && a[1..][k] < b[1..][k];
      assert a[..k + 1] == [a[0]] + a[1..][..k] == [b[0]] + b[1..][..k] == b[..k + 1];
      assert a[k + 1] < b[k + 1];
    }
  }

  lemma {:induction false} LexLeReflexive(a: string)
    ensures LexLe(a, a)
  {
    if |a| > 0 {
      LexLeReflexive(a[1..]);
    }
  }

  lemma {:induction false} LexLeAntisymmetric(a: string, b: string)
    requires LexLe(a, b) && LexLe(b, a)
    ensures a == b
  {
    if |a| > 0 && |b| > 0 {
      LexLeAntisymmetric(a[1..], b[1..]);
      assert a == [a[0]] + a[1..];
      assert b == [b[0]] + b[1..];
    }
  }

  lemma {:induction false} LexLeTransitive(a: string, b: string, c: string)
    requires LexLe(a, b) && LexLe(b, c)
    ensures LexLe(a, c)
  {
    if |a| > 0 && |b| > 0 && |c| > 0 && a[0] == b[0] == c[0] {
      LexLeTransitive(a[1..], b[1..], c[1..]);
    }
  }

  lemma {:induction false} LexLeTotal(a: string, b: string)
    ensures LexLe(a, b) || LexLe(b, a)
  {
    if |a| > 0 && |b| > 0 && a[0] == b[0] {
      LexLeTotal(a[1..], b[1..]);
    }
  }

  /** A strict comparison implies the non-strict one in the same direction. */
  lemma LexLtImpliesLe(a: string, b: string)
    requires LexLt(a, b)
    ensures LexLe(a, b) && a != b
  {
    LexLeTotal(a, b);
    if a == b {
      LexLeReflexive(a);
    }
  }
}
