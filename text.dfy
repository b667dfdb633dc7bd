/**
 * The JavaScript string primitives the two image fields rely on:
 * `split` on a one-character separator, `indexOf`, `replace` of the first
 * occurrence of a literal, the decimal rendering of a count, and the
 * recognition of a string that names an array index.
 */
module Text {
  import opened Wrappers

  /** `s.split(c)`: the empty string splits to `[""]`, and no part holds `c`. */
  function Split(s: string, c: char): (parts: seq<string>)
    ensures |parts| >= 1
    ensures forall i :: 0 <= i < |parts| ==> c !in parts[i]
    decreases |s|
  {
    if |s| == 0 then [""]
    else
      var rest := Split(s[1..], c);
      if s[0] == c then [""] + rest
      else [[s[0]] + rest[0]] + rest[1..]
  }

  /** `parts.join(c)`. */
  function JoinWith(parts: seq<string>, c: char): string
    requires |parts| >= 1
    decreases |parts|
  {
    if |parts| == 1 then parts[0] else parts[0] + [c] + JoinWith(parts[1..], c)
  }

  /** Splitting and joining back gives the original string. */
  lemma {:induction false} SplitThenJoin(s: string, c: char)
    ensures JoinWith(Split(s, c), c) == s
    decreases |s|
  {
    if |s| > 0 {
      SplitThenJoin(s[1..], c);
      var rest := Split(s[1..], c);
      var parts := Split(s, c);
      assert s == [s[0]] + s[1..];
      if s[0] == c {
        assert parts == [""] + rest;
        assert parts[1..] == rest;
      } else {
        assert parts == [[s[0]] + rest[0]] + rest[1..];
        if |rest| > 1 {
          assert parts[1..] == rest[1..];
        }
      }
    }
  }

  lemma {:induction false} SplitWithoutSeparator(a: string, c: char)
    requires c !in a
    ensures Split(a, c) == [a]
    decreases |a|
  {
    if |a| > 0 {
      assert c !in a[1..] by {
        forall i | 0 <= i < |a[1..]| ensures a[1..][i] != c { assert a[1..][i] == a[i + 1]; }
      }
      SplitWithoutSeparator(a[1..], c);
      assert [a[0]] + a[1..] == a;
    }
  }

  lemma {:induction false} SplitAtSeparator(a: string, b: string, c: char)
    requires c !in a
    ensures Split(a + [c] + b, c) == [a] + Split(b, c)
    decreases |a|
  {
    var s := a + [c] + b;
    if |a| == 0 {
      assert s == [c] + b;
      assert s[1..] == b;
    } else {
      assert c !in a[1..] by {
        forall i | 0 <= i < |a[1..]| ensures a[1..][i] != c { assert a[1..][i] == a[i + 1]; }
      }
      SplitAtSeparator(a[1..], b, c);
      assert s[1..] == a[1..] + [c] + b;
      assert s[0] == a[0];
      assert [a[0]] + a[1..] == a;
    }
  }

  /** Joining parts free of the separator and splitting again gives the parts back. */
  lemma {:induction false} JoinThenSplit(parts: seq<string>, c: char)
    requires |parts| >= 1
    requires forall i :: 0 <= i < |parts| ==> c !in parts[i]
    ensures Split(JoinWith(parts, c), c) == parts
    decreases |parts|
  {
    if |parts| == 1 {
      SplitWithoutSeparator(parts[0], c);
    } else {
      JoinThenSplit(parts[1..], c);
      SplitAtSeparator(parts[0], JoinWith(parts[1..], c), c);
      assert [parts[0]] + parts[1..] == parts;
    }
  }

  /** A character that occurs in no part, and is not the separator, does not occur in the join. */
  lemma {:induction false} NotInJoin(parts: seq<string>, c: char, d: char)
    requires |parts| >= 1 && c != d
    requires forall i :: 0 <= i < |parts| ==> c !in parts[i]
    ensures c !in JoinWith(parts, d)
    decreases |parts|
  {
    if |parts| > 1 {
      NotInJoin(parts[1..], c, d);
    }
  }

  /** `p` occurs in `s` starting at index `i`. */
  predicate OccursAt(s: string, p: string, i: int)
  {
    0 <= i && i + |p| <= |s| && s[i..i + |p|] == p
  }

  /** `s.indexOf(p, from)`: the first index at or after `from` where `p` occurs, or -1. */
  function IndexOfFrom(s: string, p: string, from: nat): (r: int)
    ensures r == -1 || (from <= r && OccursAt(s, p, r))
    ensures forall j :: from <= j < (if r == -1 then |s| + 1 else r) ==> !OccursAt(s, p, j)
    decreases |s| - from
  {
    if from + |p| > |s| then -1
    else if s[from..from + |p|] == p then from
    else IndexOfFrom(s, p, from + 1)
  }

  function IndexOf(s: string, p: string): int
  {
    IndexOfFrom(s, p, 0)
  }

  /** `s.replace(p, q)` with a string pattern: only the first occurrence is replaced. */
  function ReplaceFirst(s: string, p: string, q: string): string
  {
    var k := IndexOf(s, p);
    if k == -1 then s else s[..k] + q + s[k + |p|..]
  }

  /** The first occurrence of `p` in `a + b` is the first in `a` when `a` holds one. */
  lemma IndexOfInPrefix(a: string, b: string, p: string)
    requires IndexOf(a, p) != -1
    ensures IndexOf(a + b, p) == IndexOf(a, p)
  {
    var k := IndexOf(a, p);
    var s := a + b;
    assert s[k..k + |p|] == a[k..k + |p|];
    assert OccursAt(s, p, k);
    var k' := IndexOf(s, p);
    if k' < k {
      assert OccursAt(s, p, k');
      assert s[k'..k' + |p|] == a[k'..k' + |p|];
      assert OccursAt(a, p, k');
    }
  }

  /** Replacing inside a prefix that holds the pattern leaves the suffix alone. */
  lemma ReplaceFirstInPrefix(a: string, b: string, p: string, q: string)
    requires IndexOf(a, p) != -1
    ensures ReplaceFirst(a + b, p, q) == ReplaceFirst(a, p, q) + b
  {
    IndexOfInPrefix(a, b, p);
    var k := IndexOf(a, p);
    var x, y := a[..k], a[k + |p|..];
    assert (a + b)[..k] == x;
    assert (a + b)[k + |p|..] == y + b;
    assert x + q + (y + b) == (x + q + y) + b;
  }

  predicate IsDigit(ch: char)
  {
    '0' <= ch <= '9'
  }

  predicate AllDigits(s: string)
  {
    forall i :: 0 <= i < |s| ==> IsDigit(s[i])
  }

  function DigitChar(d: nat): (ch: char)
    requires d < 10
    ensures IsDigit(ch) && ch as int - '0' as int == d
  {
    ('0' as int + d) as char
  }

  /** The decimal rendering of a count (`'' + n` in JavaScript): digits, no leading zero. */
  function NatToDecimal(n: nat): (s: string)
    ensures |s| >= 1 && AllDigits(s)
    ensures |s| > 1 ==> s[0] != '0'
    decreases n
  {
    if n < 10 then [DigitChar(n)] else NatToDecimal(n / 10) + [DigitChar(n % 10)]
  }

  /** The value of a string of decimal digits. */
  function DecimalValue(s: string): nat
    requires AllDigits(s)
    decreases |s|
  {
    if |s| == 0 then 0
    else DecimalValue(s[..|s| - 1]) * 10 + (s[|s| - 1] as int - '0' as int)
  }

  lemma {:induction false} DecimalRoundTrip(n: nat)
    ensures DecimalValue(NatToDecimal(n)) == n
    decreases n
  {
    if n >= 10 {
      DecimalRoundTrip(n / 10);
      var s := NatToDecimal(n);
      assert s[..|s| - 1] == NatToDecimal(n / 10);
    }
  }

  lemma {:induction false} LeadingDigitPositive(s: string)
    requires |s| >= 1 && AllDigits(s) && s[0] != '0'
    ensures DecimalValue(s) >= 1
    decreases |s|
  {
    if |s| > 1 {
      LeadingDigitPositive(s[..|s| - 1]);
    }
  }

  /** A canonical digit string (no leading zero) is the rendering of its value. */
  lemma {:induction false} CanonicalRoundTrip(s: string)
    requires |s| >= 1 && AllDigits(s)
    requires |s| > 1 ==> s[0] != '0'
    ensures NatToDecimal(DecimalValue(s)) == s
    decreases |s|
  {
    var init := s[..|s| - 1];
    var d := s[|s| - 1] as int - '0' as int;
    if |s| == 1 {
      assert DecimalValue(s) == d;
      assert [DigitChar(d)] == s;
    } else {
      LeadingDigitPositive(init);
      CanonicalRoundTrip(init);
      var v := DecimalValue(s);
      assert v == DecimalValue(init) * 10 + d;
      assert v / 10 == DecimalValue(init) && v % 10 == d;
      assert init + [s[|s| - 1]] == s;
    }
  }

  /**
   * The array index a property name denotes, if any: `images[s]` reaches an
   * element only for a non-empty digit string without a leading zero.
   */
  function IndexKey(s: string): Option<nat>
  {
    if |s| >= 1 && AllDigits(s) && (|s| == 1 || s[0] != '0') then Some(DecimalValue(s)) else None
  }

  /** A property name denotes index `n` exactly when it is the decimal rendering of `n`. */
  lemma IndexKeyIsDecimal(s: string, n: nat)
    ensures IndexKey(s) == Some(n) <==> s == NatToDecimal(n)
  {
    if IndexKey(s) == Some(n) {
      CanonicalRoundTrip(s);
    }
    if s == NatToDecimal(n) {
      DecimalRoundTrip(n);
    }
  }

  /** `xs.indexOf(x)` on an array of strings: the first position of `x`, or -1. */
  function SeqIndexOf(xs: seq<string>, x: string): (r: int)
    ensures -1 <= r < |xs|
    ensures r == -1 <==> x !in xs
    ensures r >= 0 ==> xs[r] == x && x !in xs[..r]
    decreases |xs|
  {
    if |xs| == 0 then -1
    else if xs[0] == x then 0
    else
      var k := SeqIndexOf(xs[1..], x);
      if k == -1 then -1 else k + 1
  }
}
