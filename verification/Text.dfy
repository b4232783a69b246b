/** Strings as the daemon formats and compares them: decimal numerals, prefixes,
    substrings and the byte-wise order that `BTreeMap<String, _>` iterates in. */
module Text {
  function Digit(d: nat): char
    requires d < 10
  {
    "0123456789"[d]
  }

  predicate IsDigit(c: char) {
    '0' <= c <= '9'
  }

  function DigitValue(c: char): nat {
    if IsDigit(c) then c as nat - '0' as nat else 0
  }

  /** `format!("{n}")` of an unsigned integer. */
  function Decimal(n: nat): string {
    if n < 10 then [Digit(n)] else Decimal(n / 10) + [Digit(n % 10)]
  }

  /** `to_string` of a signed integer. */
  function SignedDecimal(n: int): string {
    if n < 0 then "-" + Decimal(-n) else Decimal(n)
  }

  function ParseDecimal(s: string): nat {
    if s == [] then 0 else 10 * ParseDecimal(s[..|s| - 1]) + DigitValue(s[|s| - 1])
  }

  ghost predicate AllDigits(s: string) {
    forall i :: 0 <= i < |s| ==> IsDigit(s[i])
  }

  /** Reading a numeral back gives the number it was printed from. */
  lemma {:induction false} DecimalRoundTrip(n: nat)
    ensures ParseDecimal(Decimal(n)) == n
    ensures AllDigits(Decimal(n)) && Decimal(n) != []
  {
    if n >= 10 {
      DecimalRoundTrip(n / 10);
      assert Decimal(n)[..|Decimal(n)| - 1] == Decimal(n / 10);
    } else {
      assert Decimal(n)[..0] == [];
    }
  }

  lemma DecimalInjective(m: nat, n: nat)
    requires Decimal(m) == Decimal(n)
    ensures m == n
  {
    DecimalRoundTrip(m);
    DecimalRoundTrip(n);
  }

  /** The last occurrence of a character divides a string in one way only. */
  lemma LastSplits(a: string, b: string, c: string, d: string, x: char)
    requires a + [x] + b == c + [x] + d && x !in b && x !in d
    ensures a == c && b == d
  {
    var s, t := a + [x] + b, c + [x] + d;
    assert s[|a|] == x && t[|c|] == x;
    forall i | |a| < i < |s| ensures s[i] != x { assert s[i] == b[i - |a| - 1]; }
    forall i | |c| < i < |t| ensures t[i] != x { assert t[i] == d[i - |c| - 1]; }
    assert a == s[..|a|] && c == t[..|c|] && b == s[|a| + 1..] && d == t[|c| + 1..];
  }

  predicate StartsWith(s: string, prefix: string) {
    prefix <= s
  }

  predicate OccursAt(s: string, sub: string, i: nat) {
    i + |sub| <= |s| && s[i..i + |sub|] == sub
  }

  /** `str::contains` */
  predicate Contains(s: string, sub: string) {
    exists i :: 0 <= i <= |s| && OccursAt(s, sub, i)
  }

  lemma ContainsInfix(a: string, sub: string, b: string)
    ensures Contains(a + sub + b, sub)
  {
    assert OccursAt(a + sub + b, sub, |a|);
  }

  /** The order of `String` keys in a `BTreeMap`: lexicographic by character. */
  predicate Before(a: string, b: string) {
    if b == [] then false
    else if a == [] then true
    else a[0] < b[0] || (a[0] == b[0] && Before(a[1..], b[1..]))
  }

  lemma {:induction false} BeforeTrichotomy(a: string, b: string)
    ensures a == b || Before(a, b) || Before(b, a)
    ensures !(Before(a, b) && Before(b, a))
    ensures !Before(a, a)
    decreases |a|
  {
    if a != [] {
      BeforeTrichotomy(a[1..], a[1..]);
      if b != [] {
        BeforeTrichotomy(a[1..], b[1..]);
        if a[0] == b[0] && a[1..] == b[1..] {
          assert a == [a[0]] + a[1..] && b == [b[0]] + b[1..];
        }
      }
    }
  }

  lemma {:induction false} BeforeTransitive(a: string, b: string, c: string)
    requires Before(a, b) && Before(b, c)
    ensures Before(a, c)
  {
    if a != [] && a[0] == b[0] && b[0] == c[0] {
      BeforeTransitive(a[1..], b[1..], c[1..]);
    }
  }

  ghost predicate Least(x: string, keys: set<string>) {
    x in keys && forall y :: y in keys && y != x ==> Before(x, y)
  }

  lemma {:induction false} LeastExists(keys: set<string>)
    requires keys != {}
    ensures exists x :: Least(x, keys)
    decreases |keys|
  {
    var k :| k in keys;
    if keys == {k} {
      assert Least(k, keys);
    } else {
      var rest := keys - {k};
      assert |rest| < |keys|;
      assert rest == {} ==> keys == {k};
      LeastExists(rest);
      var x :| Least(x, rest);
      BeforeTrichotomy(k, x);
      if Before(k, x) {
        forall y | y in keys && y != k ensures Before(k, y) {
          if y != x { BeforeTransitive(k, x, y); }
        }
        assert Least(k, keys);
      } else {
        assert Least(x, keys);
      }
    }
  }

  lemma LeastUnique(x: string, y: string, keys: set<string>)
    requires Least(x, keys) && Least(y, keys)
    ensures x == y
  {
    BeforeTrichotomy(x, y);
  }

  ghost function LeastOf(keys: set<string>): (x: string)
    requires keys != {}
    ensures Least(x, keys)
  {
    LeastExists(keys);
    var x :| Least(x, keys);
    x
  }

  /** The keys of a map in iteration order. */
  ghost function Sorted(keys: set<string>): seq<string>
    decreases |keys|
  {
    if keys == {} then []
    else
      var x := LeastOf(keys);
      assert |keys - {x}| < |keys|;
      [x] + Sorted(keys - {x})
  }

  /** Iteration visits every key exactly once, in increasing order. */
  lemma {:induction false} SortedEnumerates(keys: set<string>)
    ensures forall k :: k in Sorted(keys) <==> k in keys
    ensures forall i, j :: 0 <= i < j < |Sorted(keys)| ==> Before(Sorted(keys)[i], Sorted(keys)[j])
    ensures |Sorted(keys)| == |keys|
    decreases |keys|
  {
    if keys != {} {
      var x := LeastOf(keys);
      assert |keys - {x}| < |keys|;
      SortedEnumerates(keys - {x});
      var rest := Sorted(keys - {x});
      assert Sorted(keys) == [x] + rest;
      forall i, j | 0 <= i < j < |Sorted(keys)| ensures Before(Sorted(keys)[i], Sorted(keys)[j]) {
        assert Sorted(keys)[j] == rest[j - 1];
        assert rest[j - 1] in rest;
        if i > 0 { assert Sorted(keys)[i] == rest[i - 1]; }
      }
    }
  }
}
