/** Identifiers of chats, users and requests, and their canonical text: 32 lower-case
    hexadecimal digits cut 8-4-4-4-12 (section 4 of RFC 9562). */
module Uuids {
  import opened Text

  type Uuid = n: int | 0 <= n < 0x1_0000_0000_0000_0000_0000_0000_0000_0000

  const LENGTH := 36

  function Hyphenate(hex: string): (s: string)
    requires |hex| == 32
    ensures |s| == LENGTH
  {
    hex[..8] + ("-" + (hex[8..12] + ("-" + (hex[12..16] + ("-" + (hex[16..20] + ("-" + hex[20..])))))))
  }

  function UuidText(u: Uuid): (s: string)
    ensures |s| == LENGTH
  {
    Hyphenate(Numeral(u, 32, Hexadecimal))
  }

  function ParseUuid(s: string): Option<Uuid> {
    if |s| != LENGTH then None
    else
      var hex := s[..8] + s[9..13] + s[14..18] + s[19..23] + s[24..];
      var n := NumeralValue(hex, Hexadecimal);
      if n.None? || Hyphenate(hex) != s || n.value >= 0x1_0000_0000_0000_0000_0000_0000_0000_0000 then None
      else Some(n.value)
  }

  lemma UuidHasDigits(u: Uuid)
    ensures HasDigits(u, 32, Hexadecimal)
  {
    HasDigitsBelow(u, 32, Hexadecimal);
    assert Pow(Hexadecimal, 2) == 0x100;
    assert Pow(Hexadecimal, 4) == 0x1_0000;
    assert Pow(Hexadecimal, 6) == 0x100_0000;
    assert Pow(Hexadecimal, 8) == 0x1_0000_0000;
    assert Pow(Hexadecimal, 12) == 0x1_0000_0000_0000 by {
      assert Pow(Hexadecimal, 10) == 0x100_0000_0000;
    }
    assert Pow(Hexadecimal, 16) == 0x1_0000_0000_0000_0000 by {
      assert Pow(Hexadecimal, 14) == 0x100_0000_0000_0000;
    }
    assert Pow(Hexadecimal, 20) == 0x1_0000_0000_0000_0000_0000 by {
      assert Pow(Hexadecimal, 18) == 0x100_0000_0000_0000_0000;
    }
    assert Pow(Hexadecimal, 24) == 0x1_0000_0000_0000_0000_0000_0000 by {
      assert Pow(Hexadecimal, 22) == 0x100_0000_0000_0000_0000_0000;
    }
    assert Pow(Hexadecimal, 28) == 0x1_0000_0000_0000_0000_0000_0000_0000 by {
      assert Pow(Hexadecimal, 26) == 0x100_0000_0000_0000_0000_0000_0000;
    }
    assert Pow(Hexadecimal, 30) == 0x100_0000_0000_0000_0000_0000_0000_0000;
  }

  /** Cutting both texts at the same place changes neither their order nor their equality. */
  lemma CutOrder(a: string, b: string, k: nat)
    requires |a| == |b| && k <= |a|
    ensures LexLess(a, b) <==> LexLess(a[..k], b[..k]) || (a[..k] == b[..k] && LexLess(a[k..], b[k..]))
    ensures a == b <==> a[..k] == b[..k] && a[k..] == b[k..]
  {
    assert a == a[..k] + a[k..] && b == b[..k] + b[k..];
    LexConcat(a[..k], a[k..], b[..k], b[k..]);
  }

  lemma HyphenOrder(a: string, x: string, b: string, y: string)
    requires |a| == |b|
    ensures LexLess(a + ("-" + x), b + ("-" + y)) <==> LexLess(a, b) || (a == b && LexLess(x, y))
    ensures a + ("-" + x) == b + ("-" + y) <==> a == b && x == y
  {
    LexIrreflexive("-");
    LexConcat("-", x, "-", y);
    LexConcat(a, "-" + x, b, "-" + y);
  }

  lemma HyphenateOrder(a: string, b: string)
    requires |a| == |b| == 32
    ensures LexLess(Hyphenate(a), Hyphenate(b)) <==> LexLess(a, b)
    ensures Hyphenate(a) == Hyphenate(b) <==> a == b
  {
    Peel(a, b, 16, 20, a[20..], b[20..]);
    var x4, y4 := a[16..20] + ("-" + a[20..]), b[16..20] + ("-" + b[20..]);
    Peel(a, b, 12, 16, x4, y4);
    var x3, y3 := a[12..16] + ("-" + x4), b[12..16] + ("-" + y4);
    Peel(a, b, 8, 12, x3, y3);
    var x2, y2 := a[8..12] + ("-" + x3), b[8..12] + ("-" + y3);
    CutOrder(a, b, 8);
    HyphenOrder(a[..8], x2, b[..8], y2);
  }

  /** One group of digits and its hyphen, in front of remainders that already agree. */
  lemma Peel(a: string, b: string, i: nat, j: nat, x: string, y: string)
    requires |a| == |b| && i <= j <= |a|
    requires LexLess(x, y) <==> LexLess(a[j..], b[j..])
    requires x == y <==> a[j..] == b[j..]
    ensures LexLess(a[i..j] + ("-" + x), b[i..j] + ("-" + y)) <==> LexLess(a[i..], b[i..])
    ensures a[i..j] + ("-" + x) == b[i..j] + ("-" + y) <==> a[i..] == b[i..]
  {
    CutOrder(a[i..], b[i..], j - i);
    assert a[i..][..j - i] == a[i..j] && b[i..][..j - i] == b[i..j];
    assert a[i..][j - i..] == a[j..] && b[i..][j - i..] == b[j..];
    HyphenOrder(a[i..j], x, b[i..j], y);
  }

  /** Identifier texts sort as the 128-bit numbers they write, and distinct identifiers differ in text. */
  lemma UuidTextOrder(u: Uuid, v: Uuid)
    ensures LexLess(UuidText(u), UuidText(v)) <==> u < v
    ensures UuidText(u) == UuidText(v) <==> u == v
  {
    UuidHasDigits(u);
    UuidHasDigits(v);
    NumeralOrder(u, v, 32, Hexadecimal);
    HyphenateOrder(Numeral(u, 32, Hexadecimal), Numeral(v, 32, Hexadecimal));
  }

  lemma ParseUuidText(u: Uuid)
    ensures ParseUuid(UuidText(u)) == Some(u)
  {
    var h := Numeral(u, 32, Hexadecimal);
    var s := Hyphenate(h);
    assert s[..8] == h[..8];
    assert s[9..13] == h[8..12];
    assert s[14..18] == h[12..16];
    assert s[19..23] == h[16..20];
    assert s[24..] == h[20..];
    assert h == h[..8] + h[8..12] + h[12..16] + h[16..20] + h[20..];
    UuidHasDigits(u);
    NumeralRoundTrip(u, 32, Hexadecimal);
  }

  /** The text is the 32 digits cut 8-4-4-4-12. */
  lemma UuidForm(u: Uuid)
    ensures var hex := Numeral(u, 32, Hexadecimal);
            UuidText(u) == hex[..8] + "-" + hex[8..12] + "-" + hex[12..16] + "-" + hex[16..20] + "-" + hex[20..]
  {
    hide Numeral;
  }

  lemma HexadecimalDigits(n: nat, w: nat)
    ensures Numeral(n, w + 1, Hexadecimal) == Numeral(n / 16, w, Hexadecimal) + ["0123456789abcdef"[n % 16]]
  {
    DigitsInOrder(n % 16);
  }
}
