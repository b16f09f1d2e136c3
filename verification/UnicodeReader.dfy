/** Decoders after RFC 3629, section 3, and RFC 2781, section 2.2, and the byte order the key order
    stands for: the two encodings mean what the standards say. */
module UnicodeReader {
  import opened Text
  import opened Unicode

  // --- UTF-8 -----------------------------------------------------------------------------------

  predicate Tail(b: Byte) { 0x80 <= b < 0xC0 }

  /** A scalar value that needs at least `least` and is none of the surrogates. */
  function Scalar(n: int, least: nat): Option<char> {
    if least <= n < 0xD800 || (least <= n && 0xE000 <= n < 0x110000) then Some(n as char) else None
  }

  /** The character a byte string starts with, in its shortest form. */
  function ReadScalar(b: seq<Byte>): (r: Option<(char, seq<Byte>)>)
    ensures r.Some? ==> |r.value.1| < |b|
  {
    if b == [] then None
    else if b[0] < 0x80 then Some((b[0] as char, b[1..]))
    else
      var k := if 0xC0 <= b[0] < 0xE0 then 1 else if 0xE0 <= b[0] < 0xF0 then 2 else if 0xF0 <= b[0] < 0xF8 then 3
               else 0;
      if k == 0 || |b| <= k || exists i | 1 <= i <= k :: !Tail(b[i]) then None
      else
        var lead: int := b[0];
        var n1: int := b[1] - 0x80;
        var n2: int := if k >= 2 then b[2] - 0x80 else 0;
        var n3: int := if k >= 3 then b[3] - 0x80 else 0;
        var c := if k == 1 then Scalar((lead - 0xC0) * 0x40 + n1, 0x80)
                 else if k == 2 then Scalar((lead - 0xE0) * 0x1000 + n1 * 0x40 + n2, 0x800)
                 else Scalar((lead - 0xF0) * 0x40000 + n1 * 0x1000 + n2 * 0x40 + n3, 0x10000);
        if c.None? then None else Some((c.value, b[k + 1..]))
  }

  function Decode(b: seq<Byte>): Option<string>
    decreases |b|
  {
    if b == [] then Some("")
    else
      match ReadScalar(b)
      case None => None
      case Some((c, rest)) =>
        match Decode(rest)
        case None => None
        case Some(s) => Some([c] + s)
  }

  lemma Sixes(n: nat)
    ensures n / 64 * 64 + n % 64 == n && n % 64 < 64
  {
  }

  lemma CharReads(c: char, rest: seq<Byte>)
    ensures ReadScalar(Utf8Char(c) + rest) == Some((c, rest))
  {
    var e := Utf8Char(c);
    var x, n := e + rest, c as int;
    assert forall i | 0 <= i < |e| :: x[i] == e[i];
    assert x[|e|..] == rest;
    Sixes(n);
    Sixes(n / 64);
    Sixes(n / 64 / 64);
  }

  /** The bytes of a text decode to the text. */
  lemma {:induction false} Utf8Reads(s: string)
    ensures Decode(Utf8(s)) == Some(s)
  {
    hide Utf8Char, ReadScalar;
    if s != "" {
      CharReads(s[0], Utf8(s[1..]));
      Utf8Reads(s[1..]);
      assert s == [s[0]] + s[1..];
    }
  }

  // --- UTF-16 -------------------------------------------------------------------------------------

  function DecodeUnits(u: seq<int>): Option<string>
    decreases |u|
  {
    if u == [] then Some("")
    else if !(0 <= u[0] < 0x10000) then None
    else if u[0] < 0xD800 || 0xE000 <= u[0] then
      match DecodeUnits(u[1..])
      case None => None
      case Some(s) => Some([u[0] as char] + s)
    else if u[0] >= 0xDC00 || |u| < 2 || !(0xDC00 <= u[1] < 0xE000) then None
    else
      match DecodeUnits(u[2..])
      case None => None
      case Some(s) => Some([(0x10000 + (u[0] - 0xD800) * 0x400 + (u[1] - 0xDC00)) as char] + s)
  }

  /** The code units of a text decode to the text. */
  lemma {:induction false} UnitsRead(s: string)
    ensures DecodeUnits(Units(s)) == Some(s)
  {
    if s != "" {
      var a, rest := UnitsChar(s[0]), Units(s[1..]);
      UnitsRead(s[1..]);
      assert (a + rest)[0] == a[0] && (a + rest)[|a|..] == rest;
      if |a| == 2 { assert (a + rest)[1] == a[1]; }
      assert s == [s[0]] + s[1..];
    }
  }

  /** Each unit as two bytes, the higher first. */
  function BigEndian(u: seq<int>): seq<int> {
    if u == [] then [] else [u[0] / 256, u[0] % 256] + BigEndian(u[1..])
  }

  predicate AreUnits(u: seq<int>) { forall i | 0 <= i < |u| :: 0 <= u[i] < 0x10000 }

  lemma {:induction false} UnitsFit(s: string)
    ensures AreUnits(Units(s))
  {
    if s != "" { UnitsFit(s[1..]); }
  }

  lemma {:induction false} SameOrder(a: seq<int>, b: seq<int>)
    requires AreUnits(a) && AreUnits(b)
    ensures Less(a, b) <==> Less(BigEndian(a), BigEndian(b))
  {
    if a != [] && b != [] {
      var x, y := BigEndian(a), BigEndian(b);
      assert x[0] == a[0] / 256 && x[1] == a[0] % 256 && x[1..][1..] == BigEndian(a[1..]);
      assert y[0] == b[0] / 256 && y[1] == b[0] % 256 && y[1..][1..] == BigEndian(b[1..]);
      assert x[1..][0] == a[0] % 256 && y[1..][0] == b[0] % 256;
      SameOrder(a[1..], b[1..]);
    }
  }

  /** Two sequences in order: one is a proper start of the other, or they first differ at a smaller entry. */
  ghost predicate Before(a: seq<int>, b: seq<int>) {
    exists k: nat :: DifferAt(a, b, k)
  }

  ghost predicate DifferAt(a: seq<int>, b: seq<int>, k: nat) {
    k <= |a| && k < |b| && a[..k] == b[..k] && (k == |a| || a[k] < b[k])
  }

  lemma {:induction false} LessExactly(a: seq<int>, b: seq<int>)
    ensures Less(a, b) <==> Before(a, b)
  {
    if b != [] && a == [] {
      assert DifferAt(a, b, 0);
    } else if b != [] && a[0] < b[0] {
      assert DifferAt(a, b, 0);
    } else if b != [] && a[0] == b[0] {
      LessExactly(a[1..], b[1..]);
      if Less(a, b) {
        var k: nat :| DifferAt(a[1..], b[1..], k);
        assert a[..k + 1] == [a[0]] + a[1..][..k] && b[..k + 1] == [b[0]] + b[1..][..k];
        assert DifferAt(a, b, k + 1);
      }
      if Before(a, b) {
        var k: nat :| DifferAt(a, b, k);
        assert k > 0;
        assert a[1..][..k - 1] == a[..k][1..] && b[1..][..k - 1] == b[..k][1..];
        assert DifferAt(a[1..], b[1..], k - 1);
      }
    } else if b != [] {
      forall k: nat ensures !DifferAt(a, b, k) {
        if 0 < k <= |a| && k < |b| { assert a[..k][0] != b[..k][0]; }
      }
    }
  }

  /** Keys are ordered as their big-endian UTF-16 bytes are: a start of a key comes before it, and
      otherwise the first byte that differs decides. */
  lemma KeyOrder(j: string, k: string)
    ensures KeyLess(j, k) <==> Before(BigEndian(Units(j)), BigEndian(Units(k)))
  {
    hide Less, Before, BigEndian, Units;
    UnitsFit(j);
    UnitsFit(k);
    SameOrder(Units(j), Units(k));
    LessExactly(BigEndian(Units(j)), BigEndian(Units(k)));
  }
}
