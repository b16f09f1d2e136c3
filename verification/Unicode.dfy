/** The two encodings the canonical JSON form depends on: UTF-8 for the emitted
    bytes and UTF-16 code units for the order of object keys.

    A Dafny `char` is a Unicode scalar value, so an unpaired surrogate does not occur.
 */
module Unicode {
  type Byte = x: int | 0 <= x < 256

  function Utf8Char(c: char): (b: seq<Byte>)
    ensures 1 <= |b| <= 4
  {
    var n := c as int;
    var n6 := n / 64;
    var n12 := n6 / 64;
    if n < 0x80 then [n]
    else if n < 0x800 then [0xC0 + n6, 0x80 + n % 64]
    else if n < 0x10000 then [0xE0 + n12, 0x80 + n6 % 64, 0x80 + n % 64]
    else [0xF0 + n12 / 64, 0x80 + n12 % 64, 0x80 + n6 % 64, 0x80 + n % 64]
  }

  function Utf8(s: string): seq<Byte> {
    if s == "" then [] else Utf8Char(s[0]) + Utf8(s[1..])
  }

  /** Encoding is concatenative, so encoding the pieces and joining is the same. */
  lemma {:induction false} Utf8Concat(s: string, t: string)
    ensures Utf8(s + t) == Utf8(s) + Utf8(t)
  {
    if s == "" {
      assert s + t == t;
    } else {
      hide Utf8Char;
      Utf8Concat(s[1..], t);
      assert (s + t)[1..] == s[1..] + t;
      assert (s + t)[0] == s[0];
    }
  }

  lemma Utf8CharPrefixFree(c: char, d: char, s: seq<Byte>, t: seq<Byte>)
    requires Utf8Char(c) + s == Utf8Char(d) + t
    ensures c == d && s == t
  {
    var a, b := Utf8Char(c) + s, Utf8Char(d) + t;
    assert a[0] == Utf8Char(c)[0] && b[0] == Utf8Char(d)[0];
    assert |Utf8Char(c)| == |Utf8Char(d)|;
    forall i | 0 <= i < |Utf8Char(c)| ensures Utf8Char(c)[i] == Utf8Char(d)[i] {
      assert a[i] == b[i];
    }
    Utf8CharInjective(c, d);
    assert s == a[|Utf8Char(c)|..] && t == b[|Utf8Char(d)|..];
  }

  lemma Utf8CharInjective(c: char, d: char)
    requires Utf8Char(c) == Utf8Char(d)
    ensures c == d
  {
    var m, n := c as int, d as int;
    assert m / 64 == n / 64 by {
      assert m >= 0x800 ==> m / 64 / 64 == n / 64 / 64;
    }
    assert m == n;
  }

  /** Distinct texts have distinct UTF-8 bytes. */
  lemma {:induction false} Utf8Injective(s: string, t: string)
    requires Utf8(s) == Utf8(t)
    ensures s == t
  {
    if s != "" && t != "" {
      Utf8CharPrefixFree(s[0], t[0], Utf8(s[1..]), Utf8(t[1..]));
      Utf8Injective(s[1..], t[1..]);
    }
  }

  // --- UTF-16 code units and their lexicographic order ---------------------------

  function UnitsChar(c: char): seq<int> {
    var n := c as int;
    if n < 0x10000 then [n]
    else [0xD800 + (n - 0x10000) / 1024, 0xDC00 + (n - 0x10000) % 1024]
  }

  function Units(s: string): seq<int> {
    if s == "" then [] else UnitsChar(s[0]) + Units(s[1..])
  }

  lemma {:induction false} UnitsInjective(s: string, t: string)
    requires Units(s) == Units(t)
    ensures s == t
  {
    if s != "" && t != "" {
      var a, b := UnitsChar(s[0]), UnitsChar(t[0]);
      var u, v := Units(s[1..]), Units(t[1..]);
      assert (a + u)[0] == a[0] && (b + v)[0] == b[0];
      assert |a| == |b|;
      if |a| == 2 { assert (a + u)[1] == a[1] && (b + v)[1] == b[1]; }
      assert s[0] as int == t[0] as int;
      assert u == (a + u)[|a|..] && v == (b + v)[|b|..];
      UnitsInjective(s[1..], t[1..]);
    }
  }

  predicate Less(a: seq<int>, b: seq<int>) {
    b != [] && (a == [] || a[0] < b[0] || (a[0] == b[0] && Less(a[1..], b[1..])))
  }

  lemma {:induction false} LessTotal(a: seq<int>, b: seq<int>)
    ensures Less(a, b) || Less(b, a) || a == b
    ensures !(Less(a, b) && Less(b, a)) && !Less(a, a)
  {
    if a != [] {
      LessTotal(a[1..], a[1..]);
      if b != [] && a[0] == b[0] {
        LessTotal(a[1..], b[1..]);
        assert a[1..] == b[1..] ==> a == [a[0]] + a[1..] == [b[0]] + b[1..] == b;
      }
    }
  }

  lemma {:induction false} LessTransitive(a: seq<int>, b: seq<int>, c: seq<int>)
    requires Less(a, b) && Less(b, c)
    ensures Less(a, c)
  {
    if a != [] && a[0] == b[0] == c[0] {
      LessTransitive(a[1..], b[1..], c[1..]);
    }
  }

  /** The key order of canonical JSON objects. */
  predicate KeyLess(j: string, k: string) { Less(Units(j), Units(k)) }

  lemma KeyTotal(j: string, k: string)
    ensures j == k || KeyLess(j, k) || KeyLess(k, j)
    ensures !(KeyLess(j, k) && KeyLess(k, j)) && !KeyLess(j, j)
  {
    LessTotal(Units(j), Units(k));
    LessTotal(Units(j), Units(j));
    if Units(j) == Units(k) { UnitsInjective(j, k); }
  }

  lemma KeyTransitive(i: string, j: string, k: string)
    requires KeyLess(i, j) && KeyLess(j, k)
    ensures KeyLess(i, k)
  {
    LessTransitive(Units(i), Units(j), Units(k));
  }
}
