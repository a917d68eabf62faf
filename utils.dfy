/**
 * `parse_color` (utils.rs:3-12): `#rrggbb` to a `Color`. The string is
 * taken as its UTF-8 bytes, as `str::len` and slicing count them.
 */
module Utils {
  import opened Wrappers
  import opened Pixels

  const Hash: u8 := 0x23
  const Plus: u8 := 0x2b

  /** The value of one base-16 digit, in either case. */
  function DigitValue(b: u8): (v: Option<nat>)
    ensures v.Some? ==> v.value < 16
  {
    if 0x30 <= b <= 0x39 then Some(b - 0x30)
    else if 0x61 <= b <= 0x66 then Some(b - 0x61 + 10)
    else if 0x41 <= b <= 0x46 then Some(b - 0x41 + 10)
    else None
  }

  predicate IsHexDigit(b: u8) {
    DigitValue(b).Some?
  }

  predicate AllHex(ds: seq<u8>) {
    forall i :: 0 <= i < |ds| ==> IsHexDigit(ds[i])
  }

  /** The number the digits `ds` spell in base 16, most significant first. */
  function HexValue(ds: seq<u8>): nat
    requires AllHex(ds)
    decreases |ds|
  {
    if ds == [] then 0 else HexValue(ds[..|ds| - 1]) * 16 + DigitValue(ds[|ds| - 1]).value
  }

  /**
   * `u32::from_str_radix(s, 16)`: an optional leading `+`, then at least
   * one digit, the value below 2^32. Each step of the source multiplies by
   * 16 and adds a digit with overflow checks; the partial values only
   * grow, so it fails exactly when the final value does not fit.
   */
  function FromStrRadix16(s: seq<u8>): (r: Option<nat>)
    ensures r.Some? ==> r.value < 0x1_0000_0000
    ensures s != [] && s[0] != Plus && AllHex(s) && HexValue(s) < 0x1_0000_0000 ==> r == Some(HexValue(s))
    ensures s != [] && !IsHexDigit(s[|s| - 1]) ==> r.None?
  {
    if s == [] || s == [Plus] then None
    else
      var ds := if s[0] == Plus then s[1..] else s;
      if AllHex(ds) && HexValue(ds) < 0x1_0000_0000 then Some(HexValue(ds)) else None
  }

  /** `parse_color` (utils.rs:3-12): nothing but a seven-byte string starting with `#` can parse. */
  function ParseColor(s: seq<u8>): (r: Option<Color>)
    ensures r.Some? ==> |s| == 7 && s[0] == Hash
  {
    if |s| == 7 && s[0] == Hash then
      match FromStrRadix16(s[1..7])
      case Some(code) => Some(Color((code / 0x1_0000) % 0x100, (code / 0x100) % 0x100, code % 0x100))
      case None => None
    else None
  }

  /** The value of digit `i` of `ds`. */
  function V(ds: seq<u8>, i: nat): nat
    requires i < |ds| && IsHexDigit(ds[i])
  {
    DigitValue(ds[i]).value
  }

  lemma HexValueSix(ds: seq<u8>)
    requires |ds| == 6 && AllHex(ds)
    ensures HexValue(ds) == V(ds, 0) * 0x10_0000 + V(ds, 1) * 0x1_0000 + V(ds, 2) * 0x1000
                          + V(ds, 3) * 0x100 + V(ds, 4) * 0x10 + V(ds, 5)
  {
    assert ds[..1][..0] == [];
    assert HexValue(ds[..1]) == V(ds, 0);
    assert ds[..2][..1] == ds[..1];
    assert HexValue(ds[..2]) == HexValue(ds[..1]) * 16 + V(ds, 1);
    assert ds[..3][..2] == ds[..2];
    assert HexValue(ds[..3]) == HexValue(ds[..2]) * 16 + V(ds, 2);
    assert ds[..4][..3] == ds[..3];
    assert HexValue(ds[..4]) == HexValue(ds[..3]) * 16 + V(ds, 3);
    assert ds[..5][..4] == ds[..4];
    assert HexValue(ds[..5]) == HexValue(ds[..4]) * 16 + V(ds, 4);
    assert ds[..5] == ds[..|ds| - 1];
  }

  /** The value of a colour channel from its two digits, high digit first. */
  function Pair(hi: nat, lo: nat): nat {
    hi * 16 + lo
  }

  /** Three channels packed as `0xrrggbb` come apart again under the shifts and masks of utils.rs:8. */
  lemma Channels(r: nat, g: nat, b: nat)
    requires r < 0x100 && g < 0x100 && b < 0x100
    ensures var code := r * 0x1_0000 + g * 0x100 + b;
      && (code / 0x1_0000) % 0x100 == r
      && (code / 0x100) % 0x100 == g
      && code % 0x100 == b
  {
    var code := r * 0x1_0000 + g * 0x100 + b;
    assert code / 0x1_0000 == r;
    assert code / 0x100 == r * 0x100 + g;
  }

  /**
   * `#` and six base-16 digits, in either case, give the channels the
   * digit pairs spell: red from digits 1-2, green from 3-4, blue from 5-6.
   */
  lemma ParseSixDigits(s: seq<u8>)
    requires |s| == 7 && s[0] == Hash && AllHex(s[1..])
    ensures ParseColor(s) == Some(Color(Pair(V(s, 1), V(s, 2)), Pair(V(s, 3), V(s, 4)), Pair(V(s, 5), V(s, 6))))
  {
    var ds := s[1..7];
    assert ds == s[1..];
    assert forall i :: 0 <= i < 6 ==> ds[i] == s[i + 1];
    assert IsHexDigit(ds[0]);
    HexValueSix(ds);
    assert V(ds, 0) == V(s, 1) && V(ds, 1) == V(s, 2) && V(ds, 2) == V(s, 3);
    assert V(ds, 3) == V(s, 4) && V(ds, 4) == V(s, 5) && V(ds, 5) == V(s, 6);
    var r, g, b := Pair(V(s, 1), V(s, 2)), Pair(V(s, 3), V(s, 4)), Pair(V(s, 5), V(s, 6));
    assert HexValue(ds) == r * 0x1_0000 + g * 0x100 + b;
    Channels(r, g, b);
  }

  /** A leading `+` is taken as a sign, as `from_str_radix` does: `#+fffff` is the colour `0x0fffff`. */
  lemma PlusAccepted()
    ensures ParseColor([Hash, Plus, 0x66, 0x66, 0x66, 0x66, 0x66]) == Some(Color(0x0f, 0xff, 0xff))
  {
    var ds: seq<u8> := [0x66, 0x66, 0x66, 0x66, 0x66];
    assert ds[..1][..0] == [];
    assert HexValue(ds[..1]) == 0xf;
    assert ds[..2][..1] == ds[..1];
    assert HexValue(ds[..2]) == 0xff;
    assert ds[..3][..2] == ds[..2];
    assert HexValue(ds[..3]) == 0xfff;
    assert ds[..4][..3] == ds[..3];
    assert HexValue(ds[..4]) == 0xffff;
    assert ds[..4] == ds[..|ds| - 1];
    assert HexValue(ds) == 0xfffff;
    var s: seq<u8> := [Hash, Plus, 0x66, 0x66, 0x66, 0x66, 0x66];
    var n := s[1..7];
    assert n[0] == Plus && n[1..] == ds && n != [Plus];
    assert FromStrRadix16(n) == Some(0xfffff);
    Channels(0x0f, 0xff, 0xff);
  }

  /** Any byte after `#` that is not a digit, bar a leading `+`, makes the parse fail. */
  lemma BadDigitRejected(s: seq<u8>, i: nat)
    requires |s| == 7 && 1 <= i < 7 && !IsHexDigit(s[i]) && !(i == 1 && s[i] == Plus)
    ensures ParseColor(s) == None
  {
    var n := s[1..7];
    if s[0] == Hash && n[0] == Plus {
      assert n[1..][i - 2] == s[i];
    } else if s[0] == Hash {
      assert n[i - 1] == s[i];
    }
  }

  /** The lowercase or uppercase base-16 digit of `v`. */
  function Digit(v: nat, upper: bool): (b: u8)
    requires v < 16
    ensures DigitValue(b) == Some(v)
  {
    if v < 10 then 0x30 + v else if upper then 0x41 + v - 10 else 0x61 + v - 10
  }

  function Hex2(x: u8, upper: bool): seq<u8> {
    [Digit(x / 16, upper), Digit(x % 16, upper)]
  }

  /** The `#rrggbb` spelling of a colour. */
  function FormatColor(c: Color, upper: bool): (s: seq<u8>)
    ensures |s| == 7 && s[0] == Hash
  {
    [Hash] + Hex2(c.r, upper) + Hex2(c.g, upper) + Hex2(c.b, upper)
  }

  /** Round trip: every colour, spelt `#rrggbb` in either case, parses back to itself. */
  lemma ParseFormat(c: Color, upper: bool)
    ensures ParseColor(FormatColor(c, upper)) == Some(c)
  {
    var s := FormatColor(c, upper);
    assert AllHex(s[1..]) by {
      assert forall i :: 1 <= i < 7 ==> s[1..][i - 1] == s[i];
    }
    ParseSixDigits(s);
  }
}
