/** The number texts of map keys and values (loader.rs:368-375, 412-416, 443-449, 490-496): Rust's integer
    parser, `{:08x}`, `{:016x}` and `to_string`, and the daemon's two parse functions. */
module Numbers {
  import opened Common

  /** char::to_digit. */
  function Digit(c: char, radix: nat): Option<nat> {
    var d :=
      if '0' <= c <= '9' then c as nat - '0' as nat
      else if 'a' <= c <= 'z' then c as nat - 'a' as nat + 10
      else if 'A' <= c <= 'Z' then c as nat - 'A' as nat + 10
      else radix;
    if d < radix then Some(d) else None
  }

  /** The loop of from_str_radix: multiply and add, each checked against the width. */
  function Accumulate(s: string, radix: nat, bound: nat, acc: nat): Option<nat> {
    if s == "" then Some(acc)
    else if acc * radix >= bound then None
    else
      var d := Digit(s[0], radix);
      if d.None? || acc * radix + d.value >= bound then None
      else Accumulate(s[1..], radix, bound, acc * radix + d.value)
  }

  /** from_str_radix of an unsigned type: '-' is no sign, and a lone '+' is no number. */
  function FromStrRadix(s: string, radix: nat, bound: nat): Option<nat> {
    if s == "" || s == "+" || s == "-" then None
    else Accumulate(if s[0] == '+' then s[1..] else s, radix, bound, 0)
  }

  predicate Prefixed(s: string) {
    |s| >= 2 && s[0] == '0' && (s[1] == 'x' || s[1] == 'X')
  }

  const U32: nat := 0x1_0000_0000

  const U64: nat := 0x1_0000_0000_0000_0000

  function ParseKey(s: string): Option<nat> {
    if Prefixed(s) then FromStrRadix(s[2..], 16, U32) else FromStrRadix(s, 10, U32)
  }

  function ParseValue(s: string): Option<nat> {
    if Prefixed(s) then FromStrRadix(s[2..], 16, U64) else FromStrRadix(s, 10, U64)
  }

  // ---- what a numeral is ----

  predicate AllDigits(s: string, radix: nat) {
    forall i :: 0 <= i < |s| ==> Digit(s[i], radix).Some?
  }

  function DigitOr0(c: char, radix: nat): nat {
    if Digit(c, radix).Some? then Digit(c, radix).value else 0
  }

  /** The number that the digits denote, most significant first. */
  function Value(s: string, radix: nat): nat {
    if s == "" then 0 else Value(s[..|s| - 1], radix) * radix + DigitOr0(s[|s| - 1], radix)
  }

  function StripPlus(s: string): string {
    if s != "" && s[0] == '+' then s[1..] else s
  }

  /** An optional plus and at least one digit, denoting v. */
  predicate Numeral(s: string, radix: nat, v: nat) {
    StripPlus(s) != "" && AllDigits(StripPlus(s), radix) && Value(StripPlus(s), radix) == v
  }

  function Pow(b: nat, n: nat): nat {
    if n == 0 then 1 else b * Pow(b, n - 1)
  }

  lemma {:induction false} ValueFront(c: char, s: string, radix: nat)
    ensures Value([c] + s, radix) == DigitOr0(c, radix) * Pow(radix, |s|) + Value(s, radix)
  {
    if s == "" {
      assert [c] + s == [c];
      assert [c][..0] == "";
    } else {
      var n := |s| - 1;
      assert ([c] + s)[..|s|] == [c] + s[..n];
      ValueFront(c, s[..n], radix);
      var d, p, v, last := DigitOr0(c, radix), Pow(radix, n), Value(s[..n], radix), DigitOr0(s[n], radix);
      Distribute(d, p, v, radix);
    }
  }

  lemma Distribute(d: nat, p: nat, v: nat, radix: nat)
    ensures (d * p + v) * radix == d * (radix * p) + v * radix
  {
  }

  lemma MulMono(a: nat, b: nat, p: nat)
    requires p >= 1
    ensures a * p >= a
    ensures a >= b ==> a * p >= b * p
  {
  }

  lemma PowPositive(b: nat, n: nat)
    requires b >= 1
    ensures Pow(b, n) >= 1
  {
    if n > 0 {
      PowPositive(b, n - 1);
      MulMono(b, 1, Pow(b, n - 1));
    }
  }

  /** The checked loop computes the value, and gives up exactly on a non-digit or when the value overflows: an
      intermediate result over the width is never followed by a smaller one. */
  lemma {:induction false} AccumulateValue(s: string, radix: nat, bound: nat, acc: nat)
    requires radix >= 1 && acc < bound
    ensures var total := acc * Pow(radix, |s|) + Value(s, radix);
      Accumulate(s, radix, bound, acc) == if AllDigits(s, radix) && total < bound then Some(total) else None
  {
    if s != "" {
      var c, t := s[0], s[1..];
      assert s == [c] + t;
      ValueFront(c, t, radix);
      PowPositive(radix, |t|);
      var d, p := DigitOr0(c, radix), Pow(radix, |t|);
      var next := acc * radix + d;
      assert acc * Pow(radix, |s|) + Value(s, radix) == next * p + Value(t, radix) by {
        Regroup(acc, radix, p, d);
      }
      MulMono(next, next, p);
      AllDigitsFront(c, t, radix);
      if Digit(c, radix).Some? && next < bound {
        AccumulateValue(t, radix, bound, next);
      }
    }
  }

  lemma Regroup(acc: nat, radix: nat, p: nat, d: nat)
    ensures acc * (radix * p) + d * p == (acc * radix + d) * p
  {
  }

  lemma AllDigitsFront(c: char, t: string, radix: nat)
    ensures AllDigits([c] + t, radix) <==> Digit(c, radix).Some? && AllDigits(t, radix)
  {
    assert ([c] + t)[0] == c;
    assert forall i :: 0 <= i < |t| ==> t[i] == ([c] + t)[i + 1];
  }

  /** The parsers accept exactly the numerals whose value fits the width. */
  lemma ParseIff(s: string, radix: nat, bound: nat, v: nat)
    requires 2 <= radix <= 36 && bound >= 1
    ensures FromStrRadix(s, radix, bound) == Some(v) <==> Numeral(s, radix, v) && v < bound
  {
    var digits := StripPlus(s);
    AccumulateValue(digits, radix, bound, 0);
    if s == "-" {
      assert Digit(s[0], radix).None?;
    }
  }

  // ---- the texts of numbers, digit by digit ----

  /** The character stands for the digit d of base 16, and so for d < 10 of base 10. */
  predicate Shows(c: char, d: nat) {
    || (d < 10 && c as int == '0' as int + d)
    || (10 <= d < 16 && (c as int == 'a' as int + (d - 10) || c as int == 'A' as int + (d - 10)))
  }

  /** The text writes v: a digit, or a text that writes v / radix and then the digit v mod radix. */
  predicate Writes(s: string, radix: nat, v: nat)
    requires radix > 0
  {
    s != "" && Shows(s[|s| - 1], v % radix) && if |s| == 1 then v < radix else Writes(s[..|s| - 1], radix, v / radix)
  }

  lemma ShowsIff(c: char, radix: nat, d: nat)
    requires (radix == 10 || radix == 16) && d < radix
    ensures Shows(c, d) <==> Digit(c, radix) == Some(d)
  {
  }

  lemma {:induction false} WritesIff(s: string, radix: nat, v: nat)
    requires radix == 10 || radix == 16
    ensures Writes(s, radix, v) <==> s != "" && AllDigits(s, radix) && Value(s, radix) == v
  {
    hide Digit;
    if s != "" {
      var n := |s| - 1;
      assert s == s[..n] + [s[n]];
      ValueBack(s[..n], s[n], radix);
      ShowsIff(s[n], radix, v % radix);
      if Digit(s[n], radix).Some? {
        DigitBelow(s[n], radix);
        QuotientAndRest(Value(s[..n], radix), Digit(s[n], radix).value, radix);
      }
      if n == 0 {
        assert s[..0] == "";
      } else {
        WritesIff(s[..n], radix, v / radix);
      }
    }
  }

  lemma DigitBelow(c: char, radix: nat)
    requires Digit(c, radix).Some?
    ensures Digit(c, radix).value < radix
  {
  }

  lemma QuotientAndRest(q: nat, d: nat, radix: nat)
    requires (radix == 10 || radix == 16) && d < radix
    ensures (q * radix + d) / radix == q && (q * radix + d) % radix == d
  {
  }

  /** The text of a number as the parsers take it: a plus is optional. */
  predicate NumberText(s: string, radix: nat, v: nat)
    requires radix > 0
  {
    Writes(s, radix, v) || (s != "" && s[0] == '+' && Writes(s[1..], radix, v))
  }

  lemma NumberTextIff(s: string, radix: nat, v: nat)
    requires radix == 10 || radix == 16
    ensures NumberText(s, radix, v) <==> Numeral(s, radix, v)
  {
    hide Writes;
    WritesIff(s, radix, v);
    if s != "" && s[0] == '+' {
      WritesIff(s[1..], radix, v);
      assert Digit(s[0], radix).None?;
    }
  }

  /** "0x" or "0X" before the rest of the text. */
  predicate HexPrefix(s: string) {
    s[..if |s| < 2 then 0 else 2] == "0x" || s[..if |s| < 2 then 0 else 2] == "0X"
  }

  /** Keys and values: hexadecimal behind the prefix, decimal without it. */
  predicate PrefixedText(s: string, v: nat) {
    if HexPrefix(s) then NumberText(s[2..], 16, v) else NumberText(s, 10, v)
  }

  /** Keys are below 2^32. */
  lemma ParseKeyIff(s: string, v: nat)
    ensures ParseKey(s) == Some(v) <==> v < 0x1_0000_0000 && PrefixedText(s, v)
  {
    hide NumberText, Numeral, FromStrRadix;
    assert Prefixed(s) == HexPrefix(s);
    if HexPrefix(s) {
      ParseIff(s[2..], 16, U32, v);
      NumberTextIff(s[2..], 16, v);
    } else {
      ParseIff(s, 10, U32, v);
      NumberTextIff(s, 10, v);
    }
  }

  /** Values are below 2^64. */
  lemma ParseValueIff(s: string, v: nat)
    ensures ParseValue(s) == Some(v) <==> v < 0x1_0000_0000_0000_0000 && PrefixedText(s, v)
  {
    hide NumberText, Numeral, FromStrRadix;
    assert Prefixed(s) == HexPrefix(s);
    if HexPrefix(s) {
      ParseIff(s[2..], 16, U64, v);
      NumberTextIff(s[2..], 16, v);
    } else {
      ParseIff(s, 10, U64, v);
      NumberTextIff(s, 10, v);
    }
  }

  /** Array indices: decimal only, below 2^32. */
  lemma ParseIndexIff(s: string, v: nat)
    ensures FromStrRadix(s, 10, U32) == Some(v) <==> v < 0x1_0000_0000 && NumberText(s, 10, v)
  {
    ParseIff(s, 10, U32, v);
    NumberTextIff(s, 10, v);
  }

  // ---- printing ----

  function HexChar(d: nat): char
    requires d < 16
  {
    if d < 10 then '0' + d as char else 'a' + (d - 10) as char
  }

  /** `{:0width$x}` of a number that fits the width. */
  function Hex(n: nat, width: nat): string {
    if width == 0 then "" else Hex(n / 16, width - 1) + [HexChar(n % 16)]
  }

  /** to_string. */
  function Decimal(n: nat): string {
    if n < 10 then [HexChar(n)] else Decimal(n / 10) + [HexChar(n % 10)]
  }

  lemma ValueBack(s: string, c: char, radix: nat)
    ensures Value(s + [c], radix) == Value(s, radix) * radix + DigitOr0(c, radix)
    ensures AllDigits(s + [c], radix) <==> AllDigits(s, radix) && Digit(c, radix).Some?
  {
    assert (s + [c])[..|s|] == s;
    assert (s + [c])[|s|] == c;
    assert forall i :: 0 <= i < |s| ==> s[i] == (s + [c])[i];
  }

  lemma {:induction false} HexValue(n: nat, width: nat)
    requires n < Pow(16, width)
    ensures |Hex(n, width)| == width && AllDigits(Hex(n, width), 16) && Value(Hex(n, width), 16) == n
  {
    if width > 0 {
      assert n / 16 < Pow(16, width - 1);
      HexValue(n / 16, width - 1);
      ValueBack(Hex(n / 16, width - 1), HexChar(n % 16), 16);
    }
  }

  lemma {:induction false} DecimalValue(n: nat)
    ensures Decimal(n) != "" && AllDigits(Decimal(n), 10) && Value(Decimal(n), 10) == n
  {
    if n < 10 {
      ValueBack("", HexChar(n), 10);
      assert "" + [HexChar(n)] == [HexChar(n)];
    } else {
      DecimalValue(n / 10);
      ValueBack(Decimal(n / 10), HexChar(n % 10), 10);
    }
  }

  lemma Widths()
    ensures Pow(16, 8) == U32 && Pow(16, 16) == U64
  {
    assert Pow(16, 4) == 0x1_0000 by {
      assert Pow(16, 2) == 0x100;
      assert Pow(16, 3) == 0x1000;
    }
    assert Pow(16, 5) == 0x10_0000;
    assert Pow(16, 6) == 0x100_0000;
    assert Pow(16, 7) == 0x1000_0000;
    assert Pow(16, 8) == U32;
    assert Pow(16, 9) == 0x10_0000_0000;
    assert Pow(16, 10) == 0x100_0000_0000;
    assert Pow(16, 11) == 0x1000_0000_0000;
    assert Pow(16, 12) == 0x1_0000_0000_0000;
    assert Pow(16, 13) == 0x10_0000_0000_0000;
    assert Pow(16, 14) == 0x100_0000_0000_0000;
    assert Pow(16, 15) == 0x1000_0000_0000_0000;
  }

  /** Digits do not begin with a plus. */
  lemma NoPlus(s: string, radix: nat)
    requires s != "" && AllDigits(s, radix) && radix <= 36
    ensures StripPlus(s) == s
  {
    assert Digit(s[0], radix).Some?;
  }

  /** Parsing "0x" and the fixed-width text gives the number back, for every u32 and every u64. */
  lemma HexRoundTrip(k: u32, v: u64)
    ensures ParseKey("0x" + Hex(k, 8)) == Some(k)
    ensures ParseValue("0x" + Hex(v, 16)) == Some(v)
  {
    Widths();
    HexValue(k, 8);
    HexValue(v, 16);
    NoPlus(Hex(k, 8), 16);
    NoPlus(Hex(v, 16), 16);
    ParseIff(Hex(k, 8), 16, U32, k);
    ParseIff(Hex(v, 16), 16, U64, v);
    assert ("0x" + Hex(k, 8))[2..] == Hex(k, 8) && ("0x" + Hex(v, 16))[2..] == Hex(v, 16);
  }

  /** Array indices are printed and parsed in decimal. */
  lemma DecimalRoundTrip(n: u32)
    ensures FromStrRadix(Decimal(n), 10, U32) == Some(n)
  {
    DecimalValue(n);
    NoPlus(Decimal(n), 10);
    ParseIff(Decimal(n), 10, U32, n);
  }

  lemma HexCharAsDecimal(d: nat)
    requires d < 16
    ensures Digit(HexChar(d), 10).Some? <==> d < 10
    ensures d < 10 ==> DigitOr0(HexChar(d), 10) == d
  {
  }

  lemma Nothing(radix: nat)
    ensures AllDigits("", radix) && Value("", radix) == 0
  {
  }

  lemma {:induction false} HexReadAsDecimal(n: nat, width: nat)
    requires n < Pow(16, width)
    ensures var s := Hex(n, width);
      && (n < 10 ==> AllDigits(s, 10))
      && (AllDigits(s, 10) ==> Value(s, 10) <= n && (Value(s, 10) == n <==> n < 10))
  {
    hide HexChar, Digit, DigitOr0, AllDigits, Value;
    if width == 0 {
      Nothing(10);
    } else {
      HexCharAsDecimal(n % 16);
      assert n / 16 < Pow(16, width - 1);
      HexReadAsDecimal(n / 16, width - 1);
      ValueBack(Hex(n / 16, width - 1), HexChar(n % 16), 10);
    }
  }

  /** A dumped key, fed back as it is, is read in decimal: it names the same key exactly when that is below 10. */
  lemma BareKeyIff(k: u32)
    ensures ParseKey(Hex(k, 8)) == Some(k) <==> k < 10
  {
    Widths();
    HexValue(k, 8);
    var s := Hex(k, 8);
    assert Digit(s[1], 16).Some?;
    NoPlus(s, 16);
    HexReadAsDecimal(k, 8);
    ParseIff(s, 10, U32, k);
  }

  /** Fixed-width texts are lower case, and decimal texts have no leading zero. */
  lemma {:induction false} HexIsLower(n: nat, width: nat, i: nat)
    requires i < width
    ensures |Hex(n, width)| == width && ('0' <= Hex(n, width)[i] <= '9' || 'a' <= Hex(n, width)[i] <= 'f')
  {
    if i < width - 1 {
      HexIsLower(n / 16, width - 1, i);
    } else if width > 1 {
      HexIsLower(n / 16, width - 1, 0);
    }
  }

  lemma {:induction false} DecimalHasNoZero(n: nat)
    ensures Decimal(n) != "" && (Decimal(n)[0] == '0' <==> n == 0)
  {
    if n >= 10 {
      DecimalHasNoZero(n / 10);
    }
  }

  /** What is printed in decimal is read back as key and as value. */
  lemma DecimalIsRead(k: u32, v: u64)
    ensures ParseKey(Decimal(k)) == Some(k) && ParseValue(Decimal(v)) == Some(v)
  {
    DecimalUnprefixed(k);
    DecimalUnprefixed(v);
    DecimalValue(k);
    DecimalValue(v);
    NoPlus(Decimal(k), 10);
    NoPlus(Decimal(v), 10);
    ParseIff(Decimal(k), 10, U32, k);
    ParseIff(Decimal(v), 10, U64, v);
  }

  lemma DecimalUnprefixed(n: nat)
    ensures !Prefixed(Decimal(n))
  {
    DecimalValue(n);
    var s := Decimal(n);
    if |s| >= 2 {
      assert Digit(s[1], 10).Some?;
    }
  }
}
