/** Strings as the table orders them: code unit by code unit, which for the ASCII texts used
    here is the order of their UTF-8 bytes. Fixed-width numerals sort like the numbers they write. */
module Text {

  datatype Option<+T> = None | Some(value: T)

  predicate LexLess(a: string, b: string) {
    if b == [] then false
    else if a == [] then true
    else a[0] < b[0] || (a[0] == b[0] && LexLess(a[1..], b[1..]))
  }

  /** Two texts compare at the first place where they differ; one that ends before is the smaller. */
  lemma {:induction false} LexMeaning(a: string, b: string)
    ensures LexLess(a, b) <==> exists k: nat :: DiffersAt(a, b, k)
  {
    if b == [] || a == [] {
      if b != [] { assert DiffersAt(a, b, 0); }
    } else {
      LexMeaning(a[1..], b[1..]);
      if a[0] < b[0] { assert DiffersAt(a, b, 0); }
      if k: nat :| DiffersAt(a[1..], b[1..], k) && a[0] == b[0] {
        assert a[..k + 1] == [a[0]] + a[1..][..k] && b[..k + 1] == [b[0]] + b[1..][..k];
        assert DiffersAt(a, b, k + 1);
      }
      if k: nat :| DiffersAt(a, b, k) && k > 0 {
        assert a[..k][0] == b[..k][0] && a[..k][1..] == a[1..][..k - 1] && b[..k][1..] == b[1..][..k - 1];
        assert DiffersAt(a[1..], b[1..], k - 1);
      }
    }
  }

  predicate DiffersAt(a: string, b: string, k: nat) {
    k <= |a| && k < |b| && a[..k] == b[..k] && (k == |a| || a[k] < b[k])
  }

  /** Texts that begin with equally long fields compare field first, remainder second. */
  lemma {:induction false} LexConcat(a: string, x: string, b: string, y: string)
    requires |a| == |b|
    ensures LexLess(a + x, b + y) <==> LexLess(a, b) || (a == b && LexLess(x, y))
    ensures a + x == b + y <==> a == b && x == y
  {
    if a == [] {
      assert a + x == x && b + y == y;
    } else {
      assert (a + x)[1..] == a[1..] + x;
      assert (b + y)[1..] == b[1..] + y;
      LexConcat(a[1..], x, b[1..], y);
      assert a == [a[0]] + a[1..] && b == [b[0]] + b[1..];
      assert a + x == b + y ==> (a + x)[0] == (b + y)[0] && (a + x)[1..] == (b + y)[1..];
    }
  }

  lemma {:induction false} LexIrreflexive(a: string)
    ensures !LexLess(a, a)
  {
    if a != [] {
      LexIrreflexive(a[1..]);
    }
  }

  // ----- numerals

  datatype Base = Decimal | Hexadecimal {
    function Radix(): nat {
      if Decimal? then 10 else 16
    }

    function Quotient(n: nat): nat {
      if Decimal? then n / 10 else n / 16
    }

    function Remainder(n: nat): (r: nat)
      ensures r < Radix()
    {
      if Decimal? then n % 10 else n % 16
    }

    function Shift(high: nat, low: nat): nat {
      if Decimal? then 10 * high + low else 16 * high + low
    }
  }

  function Pow(b: Base, w: nat): nat {
    if w == 0 then 1 else b.Shift(Pow(b, w - 1), 0)
  }

  function DigitChar(d: nat): char
    requires d < 16
  {
    if d < 10 then ('0' as int + d) as char else ('a' as int + (d - 10)) as char
  }

  function DigitValue(c: char): Option<nat> {
    if '0' <= c <= '9' then Some(c as int - '0' as int)
    else if 'a' <= c <= 'f' then Some(c as int - 'a' as int + 10)
    else None
  }

  /** Exactly w digits of n in base b, zero padded on the left. */
  function Numeral(n: nat, w: nat, b: Base): (s: string)
    ensures |s| == w
  {
    if w == 0 then [] else Numeral(b.Quotient(n), w - 1, b) + [DigitChar(b.Remainder(n))]
  }

  /** The number written by a string of digits, or None when some character is no digit of base b. */
  function NumeralValue(s: string, b: Base): Option<nat> {
    if s == [] then Some(0)
    else
      var high := NumeralValue(s[..|s| - 1], b);
      var low := DigitValue(s[|s| - 1]);
      if high.Some? && low.Some? && low.value < b.Radix() then Some(b.Shift(high.value, low.value)) else None
  }

  /** n has at most w digits in base b. */
  predicate HasDigits(n: nat, w: nat, b: Base) {
    if w == 0 then n == 0 else HasDigits(b.Quotient(n), w - 1, b)
  }

  lemma DigitsInOrder(d: nat)
    requires d < 16
    ensures DigitChar(d) == "0123456789abcdef"[d]
  {
    var digits := "0123456789abcdef";
    assert digits[0] == '0' && digits[1] == '1' && digits[2] == '2' && digits[3] == '3' && digits[4] == '4';
    assert digits[5] == '5' && digits[6] == '6' && digits[7] == '7' && digits[8] == '8' && digits[9] == '9';
    assert digits[10] == 'a' && digits[11] == 'b' && digits[12] == 'c' && digits[13] == 'd' && digits[14] == 'e';
  }

  lemma QuotientOrder(m: nat, n: nat, b: Base)
    ensures m < n <==>
              b.Quotient(m) < b.Quotient(n) || (b.Quotient(m) == b.Quotient(n) && b.Remainder(m) < b.Remainder(n))
    ensures m == n <==> b.Quotient(m) == b.Quotient(n) && b.Remainder(m) == b.Remainder(n)
  {
  }

  lemma {:induction false} HasDigitsBelow(n: nat, w: nat, b: Base)
    ensures HasDigits(n, w, b) <==> n < Pow(b, w)
  {
    if w > 0 {
      HasDigitsBelow(b.Quotient(n), w - 1, b);
    }
  }

  lemma LexOne(x: char, y: char)
    ensures LexLess([x], [y]) <==> x < y
  {
  }

  lemma {:induction false} NumeralOrder(m: nat, n: nat, w: nat, b: Base)
    requires HasDigits(m, w, b) && HasDigits(n, w, b)
    ensures LexLess(Numeral(m, w, b), Numeral(n, w, b)) <==> m < n
    ensures Numeral(m, w, b) == Numeral(n, w, b) <==> m == n
  {
    if w > 0 {
      var p, q, x, y := b.Quotient(m), b.Quotient(n), b.Remainder(m), b.Remainder(n);
      QuotientOrder(m, n, b);
      NumeralOrder(p, q, w - 1, b);
      LexConcat(Numeral(p, w - 1, b), [DigitChar(x)], Numeral(q, w - 1, b), [DigitChar(y)]);
      LexOne(DigitChar(x), DigitChar(y));
    }
  }

  lemma {:induction false} NumeralRoundTrip(n: nat, w: nat, b: Base)
    requires HasDigits(n, w, b)
    ensures NumeralValue(Numeral(n, w, b), b) == Some(n)
  {
    if w > 0 {
      var q, x := b.Quotient(n), b.Remainder(n);
      NumeralRoundTrip(q, w - 1, b);
      ReadLastDigit(Numeral(q, w - 1, b), q, x, b);
      ShiftBack(n, b);
    }
  }

  lemma ReadLastDigit(high: string, q: nat, x: nat, b: Base)
    requires NumeralValue(high, b) == Some(q) && x < b.Radix()
    ensures NumeralValue(high + [DigitChar(x)], b) == Some(b.Shift(q, x))
  {
    var s := high + [DigitChar(x)];
    assert s[..|s| - 1] == high && s[|s| - 1] == DigitChar(x);
    assert DigitValue(DigitChar(x)) == Some(x);
  }

  lemma ShiftBack(n: nat, b: Base)
    ensures b.Shift(b.Quotient(n), b.Remainder(n)) == n
  {
  }

  // ----- layouts: fixed-width numerals, each followed by a fixed separator

  datatype Field = Field(width: nat, separator: string)

  type Layout = seq<Field>

  predicate Fits(values: seq<nat>, layout: Layout, b: Base) {
    |values| == |layout| && forall i | 0 <= i < |values| :: HasDigits(values[i], layout[i].width, b)
  }

  function Render(values: seq<nat>, layout: Layout, b: Base): string
    requires |values| == |layout|
  {
    if values == [] then ""
    else Numeral(values[0], layout[0].width, b) + (layout[0].separator + Render(values[1..], layout[1..], b))
  }

  /** Reads a text back: None unless it is exactly digits and separators of this layout. */
  function Scan(text: string, layout: Layout, b: Base): (r: Option<seq<nat>>)
    ensures r.Some? ==> |r.value| == |layout|
  {
    if layout == [] then (if text == "" then Some([]) else None)
    else
      var w, sep := layout[0].width, layout[0].separator;
      if |text| < w + |sep| || text[w..w + |sep|] != sep then None
      else
        var head := NumeralValue(text[..w], b);
        var tail := Scan(text[w + |sep|..], layout[1..], b);
        if head.Some? && tail.Some? then Some([head.value] + tail.value) else None
  }

  predicate SeqLess(u: seq<nat>, v: seq<nat>) {
    if v == [] then false
    else if u == [] then true
    else u[0] < v[0] || (u[0] == v[0] && SeqLess(u[1..], v[1..]))
  }

  lemma {:induction false} RenderOrder(u: seq<nat>, v: seq<nat>, layout: Layout, b: Base)
    requires Fits(u, layout, b) && Fits(v, layout, b)
    ensures |Render(u, layout, b)| == |Render(v, layout, b)|
    ensures LexLess(Render(u, layout, b), Render(v, layout, b)) <==> SeqLess(u, v)
    ensures Render(u, layout, b) == Render(v, layout, b) <==> u == v
  {
    if u != [] {
      var sep := layout[0].separator;
      RenderOrder(u[1..], v[1..], layout[1..], b);
      NumeralOrder(u[0], v[0], layout[0].width, b);
      LexIrreflexive(sep);
      LexConcat(sep, Render(u[1..], layout[1..], b), sep, Render(v[1..], layout[1..], b));
      LexConcat(Numeral(u[0], layout[0].width, b), sep + Render(u[1..], layout[1..], b),
                Numeral(v[0], layout[0].width, b), sep + Render(v[1..], layout[1..], b));
      assert u == [u[0]] + u[1..] && v == [v[0]] + v[1..];
    }
  }

  lemma ThreeParts(head: string, sep: string, rest: string)
    ensures var text, w := head + (sep + rest), |head|;
            |text| >= w + |sep| && text[..w] == head && text[w..w + |sep|] == sep && text[w + |sep|..] == rest
  {
  }

  /** Reading the first field of a text leaves the rest to be read. */
  lemma ScanFirst(head: string, rest: string, n: nat, values: seq<nat>, layout: Layout, b: Base)
    requires layout != [] && |head| == layout[0].width && NumeralValue(head, b) == Some(n)
    requires Scan(rest, layout[1..], b) == Some(values)
    ensures Scan(head + (layout[0].separator + rest), layout, b) == Some([n] + values)
  {
    hide NumeralValue;
    ThreeParts(head, layout[0].separator, rest);
  }

  lemma {:induction false} ScanRender(v: seq<nat>, layout: Layout, b: Base)
    requires Fits(v, layout, b)
    ensures Scan(Render(v, layout, b), layout, b) == Some(v)
  {
    if v != [] {
      NumeralRoundTrip(v[0], layout[0].width, b);
      ScanRender(v[1..], layout[1..], b);
      hide Numeral, NumeralValue, Scan;
      ScanFirst(Numeral(v[0], layout[0].width, b), Render(v[1..], layout[1..], b), v[0], v[1..], layout, b);
      assert v == [v[0]] + v[1..];
    }
  }
}
