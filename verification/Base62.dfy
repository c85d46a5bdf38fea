/** The base-62 display form of enrolment tokens (internal/auth/token.go). */
module Base62 {
  import opened Collections

  const NUMERALS := "0123456789"
  const UPPER := "ABCDEFGHIJKLMNOPQRSTUVWXYZ"
  const LOWER := "abcdefghijklmnopqrstuvwxyz"
  const ALPHABET := NUMERALS + UPPER + LOWER
  const WIDTH := 43

  function Pow(b: nat, e: nat): (p: nat)
    ensures b > 0 ==> p > 0
  {
    if e == 0 then 1 else b * Pow(b, e - 1)
  }

  /** big.Int.SetBytes: big-endian. */
  function Number(raw: seq<byte>): (n: nat)
  {
    if raw == [] then 0 else 256 * Number(raw[..|raw| - 1]) + raw[|raw| - 1]
  }

  function Digit62(d: nat): (c: char)
    requires d < 62
  {
    ALPHABET[d]
  }

  function Value62(c: char): (d: nat)
    ensures d < 62
  {
    if '0' <= c <= '9' then c as int - '0' as int
    else if 'A' <= c <= 'Z' then 10 + (c as int - 'A' as int)
    else if 'a' <= c <= 'z' then 36 + (c as int - 'a' as int)
    else 0
  }

  lemma NumeralAt(d: nat)
    requires d < 10
    ensures NUMERALS[d] == (d + '0' as int) as char
  {
  }

  lemma UpperAt(d: nat)
    requires d < 26
    ensures UPPER[d] == (d + 'A' as int) as char
  {
  }

  lemma LowerAt(d: nat)
    requires d < 26
    ensures LOWER[d] == (d + 'a' as int) as char
  {
  }

  lemma DigitReadsBack(d: nat)
    requires d < 62
    ensures Value62(Digit62(d)) == d
  {
    if d < 10 {
      NumeralAt(d);
    } else if d < 36 {
      UpperAt(d - 10);
    } else {
      LowerAt(d - 36);
    }
  }

  /** The decoder: most significant digit first. */
  function Decode(s: string): (n: nat)
  {
    if s == "" then 0 else 62 * Decode(s[..|s| - 1]) + Value62(s[|s| - 1])
  }

  /** Least significant digit first, as the division loop produces them. */
  function Digits(n: nat): (s: string)
  {
    if n == 0 then "" else [Digit62(n % 62)] + Digits(n / 62)
  }

  function Reverse(s: string): (r: string)
    ensures |r| == |s|
  {
    if s == "" then "" else Reverse(s[1..]) + [s[0]]
  }

  function Padded(s: string): (r: string) {
    s + Repeat('0', if |s| < WIDTH then WIDTH - |s| else 0)
  }

  function Encoded(raw: seq<byte>): (s: string) {
    Reverse(Padded(Digits(Number(raw))))
  }

  // ---- the encoder as written -----------------------------------------------------

  method Encode(raw: seq<byte>) returns (s: string)
    ensures s == Encoded(raw)
  {
    var n := SetBytes(raw);
    var out := Divide(n);
    out := Pad(out);
    var runes := new char[|out|](i requires 0 <= i < |out| => out[i]);
    assert runes[..] == out;
    ReverseInPlace(runes);
    s := runes[..];
  }

  /** The division loop. */
  method Divide(number: nat) returns (out: string)
    ensures out == Digits(number)
  {
    var n := number;
    out := "";
    while n > 0
      invariant out + Digits(n) == Digits(number)
    {
      var mod := n % 62;
      ghost var was := out;
      out := out + [Digit62(mod)];
      assert was + ([Digit62(mod)] + Digits(n / 62)) == out + Digits(n / 62);
      n := n / 62;
    }
  }

  /** The padding loop. */
  method Pad(digits: string) returns (out: string)
    ensures out == Padded(digits)
  {
    out := digits;
    while |out| < WIDTH
      invariant |digits| <= |out| && out == digits + Repeat('0', |out| - |digits|)
      invariant |out| <= if |digits| < WIDTH then WIDTH else |digits|
    {
      out := out + "0";
    }
  }

  method SetBytes(raw: seq<byte>) returns (n: nat)
    ensures n == Number(raw)
  {
    n := 0;
    for i := 0 to |raw|
      invariant n == Number(raw[..i])
    {
      assert raw[..i + 1][..i] == raw[..i];
      n := 256 * n + raw[i];
    }
    assert raw[..|raw|] == raw;
  }

  /** Two indices moving towards each other. */
  method ReverseInPlace(a: array<char>)
    modifies a
    ensures a[..] == Reverse(old(a[..]))
  {
    var i, j := 0, a.Length - 1;
    while i < j
      invariant 0 <= i <= j + 1 <= a.Length && i + j == a.Length - 1
      invariant forall k :: 0 <= k < i || j < k < a.Length ==> a[k] == old(a[a.Length - 1 - k])
      invariant forall k :: i <= k <= j ==> a[k] == old(a[k])
    {
      a[i], a[j] := a[j], a[i];
      i, j := i + 1, j - 1;
    }
    ghost var was := old(a[..]);
    forall k | 0 <= k < a.Length
      ensures a[k] == Reverse(was)[k]
    {
      ReverseAt(was, k);
    }
  }

  lemma {:induction false} ReverseAt(s: string, k: nat)
    requires k < |s|
    ensures Reverse(s)[k] == s[|s| - 1 - k]
  {
    if k < |s| - 1 {
      ReverseAt(s[1..], k);
    }
  }

  // ---- it can be decoded ----------------------------------------------------------

  lemma {:induction false} DecodeReverse(n: nat, pad: nat)
    ensures Decode(Reverse(Digits(n) + Repeat('0', pad))) == n
    decreases n, pad
  {
    if n == 0 {
      assert Digits(n) + Repeat('0', pad) == Repeat('0', pad);
      ZerosDecode(pad);
    } else {
      var rest := Digits(n / 62) + Repeat('0', pad);
      var s := Digits(n) + Repeat('0', pad);
      assert s == [Digit62(n % 62)] + rest;
      assert s[1..] == rest;
      var r := Reverse(rest);
      assert (r + [s[0]])[..|r|] == r;
      DecodeReverse(n / 62, pad);
      DigitReadsBack(n % 62);
    }
  }

  lemma {:induction false} ZerosDecode(pad: nat)
    ensures Decode(Reverse(Repeat('0', pad))) == 0
  {
    ReverseZeros(pad);
    DecodeZeros(pad);
  }

  lemma {:induction false} DecodeZeros(pad: nat)
    ensures Decode(Repeat('0', pad)) == 0
  {
    if pad > 0 {
      DecodeZeros(pad - 1);
      assert Repeat('0', pad)[..pad - 1] == Repeat('0', pad - 1);
    }
  }

  lemma ReverseZeros(pad: nat)
    ensures Reverse(Repeat('0', pad)) == Repeat('0', pad)
  {
    forall k | 0 <= k < pad
      ensures Reverse(Repeat('0', pad))[k] == Repeat('0', pad)[k]
    {
      ReverseAt(Repeat('0', pad), k);
    }
  }

  /** Decoding gives back the number, for inputs of any length. */
  lemma DecodesToNumber(raw: seq<byte>)
    ensures Decode(Encoded(raw)) == Number(raw)
  {
    var d := Digits(Number(raw));
    DecodeReverse(Number(raw), if |d| < WIDTH then WIDTH - |d| else 0);
  }

  lemma {:induction false} NumberInjective(a: seq<byte>, b: seq<byte>)
    requires |a| == |b| && Number(a) == Number(b)
    ensures a == b
  {
    if a != [] {
      var n := |a| - 1;
      assert a[n] as int == Number(a) % 256 && b[n] as int == Number(b) % 256;
      NumberInjective(a[..n], b[..n]);
      assert a == a[..n] + [a[n]] && b == b[..n] + [b[n]];
    }
  }

  // ---- and has a fixed width ------------------------------------------------------

  lemma {:induction false} NumberBound(raw: seq<byte>)
    ensures Number(raw) < Pow(256, |raw|)
  {
    if raw != [] {
      NumberBound(raw[..|raw| - 1]);
    }
  }

  /** n digits suffice exactly for the numbers below 62^n. */
  lemma {:induction false} DigitsWidth(n: nat, width: nat)
    ensures |Digits(n)| <= width <==> n < Pow(62, width)
  {
    if n > 0 && width > 0 {
      DigitsWidth(n / 62, width - 1);
      assert n / 62 < Pow(62, width - 1) <==> n < 62 * Pow(62, width - 1);
    }
  }

  lemma MulAssociative(a: nat, b: nat, c: nat)
    ensures a * (b * c) == a * b * c
  {
  }

  lemma {:induction false} PowAdd(b: nat, m: nat, n: nat)
    ensures Pow(b, m + n) == Pow(b, m) * Pow(b, n)
  {
    if m > 0 {
      PowAdd(b, m - 1, n);
      assert m + n - 1 == m - 1 + n;
      MulAssociative(b, Pow(b, m - 1), Pow(b, n));
    }
  }

  lemma PowDouble(b: nat, e: nat, v: nat)
    requires Pow(b, e) == v
    ensures Pow(b, 2 * e) == v * v
  {
    PowAdd(b, e, e);
  }

  lemma Power256(e: nat)
    requires e == 4
    ensures Pow(256, 8 * e) == 115792089237316195423570985008687907853269984665640564039457584007913129639936
  {
    assert Pow(256, e) == 4294967296;
    PowDouble(256, e, 4294967296);
    PowDouble(256, 2 * e, 18446744073709551616);
    PowDouble(256, 4 * e, 340282366920938463463374607431768211456);
  }

  lemma Power62(e: nat)
    requires e == 5
    ensures Pow(62, 8 * e) == 496212362459367066914366580195701544604991251555593230875525121862270976
    ensures Pow(62, 2) == 3844 && Pow(62, 3) == 238328
  {
    assert Pow(62, e) == 916132832;
    PowDouble(62, e, 916132832);
    PowDouble(62, 2 * e, 839299365868340224);
    PowDouble(62, 4 * e, 704423425546998022968330264616370176);
  }

  /** 62^43 exceeds 2^256, and 62^42 does not. */
  lemma Powers(bytes: nat, width: nat)
    requires bytes == 32 && width == 43
    ensures Pow(62, width - 1) < Pow(256, bytes) < Pow(62, width)
  {
    Power256(4);
    Power62(5);
    PowAdd(62, 40, 2);
    PowAdd(62, 40, 3);
  }

  lemma DigitsFit(raw: seq<byte>, width: nat)
    requires 0 < width && Pow(62, width - 1) < Pow(256, |raw|) < Pow(62, width)
    ensures |Digits(Number(raw))| <= width
    ensures |Digits(Number(raw))| == width <==> Number(raw) >= Pow(62, width - 1)
  {
    NumberBound(raw);
    DigitsWidth(Number(raw), width - 1);
    DigitsWidth(Number(raw), width);
  }

  /** 43 is the least width that fits: some 32-byte inputs need all of it. */
  lemma WidthIsTight(raw: seq<byte>, width: nat)
    requires |raw| == 32 && width == WIDTH
    ensures |Digits(Number(raw))| <= width
    ensures |Digits(Number(raw))| == width <==> Number(raw) >= Pow(62, width - 1)
  {
    Powers(|raw|, width);
    DigitsFit(raw, width);
  }

  lemma PaddedWidth(s: string)
    requires |s| <= WIDTH
    ensures |Padded(s)| == WIDTH
  {
  }

  /** Every 32-byte input takes exactly 43 characters. */
  lemma FixedWidth(raw: seq<byte>)
    requires |raw| == 32
    ensures |Encoded(raw)| == WIDTH
  {
    var d := Digits(Number(raw));
    WidthIsTight(raw, WIDTH);
    PaddedWidth(d);
    assert |Encoded(raw)| == |Padded(d)|;
  }

  /** Different inputs of one length give different texts. */
  lemma EncodingInjective(a: seq<byte>, b: seq<byte>)
    requires |a| == |b| && Encoded(a) == Encoded(b)
    ensures a == b
  {
    DecodesToNumber(a);
    DecodesToNumber(b);
    NumberInjective(a, b);
  }

  /** The bytes are read most significant first. */
  lemma {:induction false} NumberIsBigEndian(first: byte, rest: seq<byte>)
    ensures Number([first] + rest) == first * Pow(256, |rest|) + Number(rest)
  {
    var raw := [first] + rest;
    if rest == [] {
      assert raw[..0] == [];
      assert Number(raw[..0]) == 0;
    } else {
      var n := |rest| - 1;
      assert raw[..|raw| - 1] == [first] + rest[..n];
      NumberIsBigEndian(first, rest[..n]);
      MulAssociative(first, 256, Pow(256, n));
      MulAssociative(256, first, Pow(256, n));
    }
  }
}
