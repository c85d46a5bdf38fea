/** The pieces of Go's strings and strconv packages the models rely on, over
    ASCII text. */
module GoStrings {
  import opened Collections

  predicate IsDigit(c: char) {
    '0' <= c <= '9'
  }

  predicate IsSpace(c: char) {
    c == ' ' || '\t' <= c <= '\r'
  }

  predicate AllDigits(s: string) {
    forall i :: 0 <= i < |s| ==> IsDigit(s[i])
  }

  function DigitValue(c: char): (d: nat)
    requires IsDigit(c)
    ensures d < 10
  {
    c as int - '0' as int
  }

  function DigitChar(d: nat): (c: char)
    requires d < 10
    ensures IsDigit(c) && DigitValue(c) == d
  {
    (d + '0' as int) as char
  }

  /** The number a digit string denotes. */
  function Value(s: string): (n: nat)
    requires AllDigits(s)
  {
    if s == "" then 0 else 10 * Value(s[..|s| - 1]) + DigitValue(s[|s| - 1])
  }

  /** %d for a natural number. */
  function Decimal(n: nat): (s: string)
    ensures |s| > 0 && AllDigits(s)
  {
    if n < 10 then [DigitChar(n)] else Decimal(n / 10) + [DigitChar(n % 10)]
  }

  lemma {:induction false} ValueOfDecimal(n: nat)
    ensures Value(Decimal(n)) == n
  {
    if n >= 10 {
      ValueOfDecimal(n / 10);
      var d := Decimal(n / 10);
      assert (d + [DigitChar(n % 10)])[..|d|] == d;
    }
  }

  lemma DecimalInjective(m: nat, n: nat)
    requires Decimal(m) == Decimal(n)
    ensures m == n
  {
    ValueOfDecimal(m);
    ValueOfDecimal(n);
  }

  const MAX_INT := 0x7fff_ffff_ffff_ffff

  /** strconv.Atoi: an optional sign, then digits only, within 64 bits. */
  function Atoi(s: string): (r: Option<int>)
    ensures r.Some? ==> s != "" && (IsDigit(s[0]) || s[0] == '+' || s[0] == '-') && IsDigit(s[|s| - 1])
    ensures r.Some? ==> forall i :: 1 <= i < |s| ==> IsDigit(s[i])
  {
    if s == "" then None
    else
      var digits := if s[0] == '+' || s[0] == '-' then s[1..] else s;
      if digits == "" || !AllDigits(digits) then None
      else
        var v: int := Value(digits);
        var n := if s[0] == '-' then -v else v;
        if -MAX_INT - 1 <= n <= MAX_INT then
          assert s[|s| - 1] == digits[|digits| - 1];
          assert forall i :: 1 <= i < |s| ==> s[i] == digits[i - (|s| - |digits|)];
          Some(n)
        else None
  }

  /** The first position of c, or |s|. */
  function IndexByte(s: string, c: char): (i: nat)
    ensures i <= |s| && (forall j :: 0 <= j < i ==> s[j] != c) && (i < |s| ==> s[i] == c)
  {
    if s == "" || s[0] == c then 0 else 1 + IndexByte(s[1..], c)
  }

  function TrimLeft(s: string): (t: string)
  {
    if s != "" && IsSpace(s[0]) then TrimLeft(s[1..]) else s
  }

  function TrimRight(s: string): (t: string)
  {
    if s != "" && IsSpace(s[|s| - 1]) then TrimRight(s[..|s| - 1]) else s
  }

  function TrimSpace(s: string): (t: string)
  {
    TrimRight(TrimLeft(s))
  }

  /** Text that neither starts nor ends with a space is left alone. */
  lemma TrimNothing(s: string)
    requires s != "" ==> !IsSpace(s[0]) && !IsSpace(s[|s| - 1])
    ensures TrimSpace(s) == s
  {
  }

  function LowerChar(c: char): (l: char)
  {
    if 'A' <= c <= 'Z' then (c as int + 32) as char else c
  }

  function ToLower(s: string): (t: string)
    ensures |t| == |s|
  {
    if s == "" then "" else [LowerChar(s[0])] + ToLower(s[1..])
  }

  // ---- what these functions say of text put together ---------------------------------

  lemma {:induction false} IndexIsFirst(s: string, c: char, i: nat)
    requires i < |s| && s[i] == c && forall j :: 0 <= j < i ==> s[j] != c
    ensures IndexByte(s, c) == i
  {
    if i > 0 {
      IndexIsFirst(s[1..], c, i - 1);
    }
  }

  lemma {:induction false} IndexOfNone(s: string, c: char)
    requires forall i :: 0 <= i < |s| ==> s[i] != c
    ensures IndexByte(s, c) == |s|
  {
    if s != "" {
      IndexOfNone(s[1..], c);
    }
  }

  /** Splitting at the first separator gives back the parts it joins. */
  lemma PartsOfJoin(a: string, c: char, b: string)
    requires c !in a
    ensures var s := a + [c] + b; IndexByte(s, c) == |a| && s[..|a|] == a && s[|a| + 1..] == b
  {
    IndexIsFirst(a + [c] + b, c, |a|);
  }

  /** A decimal number reads back, within 64 bits. */
  lemma AtoiOfDecimal(n: nat)
    requires n <= MAX_INT
    ensures Atoi(Decimal(n)) == Some(n)
  {
    var s := Decimal(n);
    assert IsDigit(s[0]);
    ValueOfDecimal(n);
  }

  predicate AllSpace(s: string) {
    forall i :: 0 <= i < |s| ==> IsSpace(s[i])
  }

  /** No space at either end. */
  predicate Tight(s: string) {
    s != "" ==> !IsSpace(s[0]) && !IsSpace(s[|s| - 1])
  }

  lemma {:induction false} TrimLeftDrops(a: string, s: string)
    requires AllSpace(a) && (s == "" || !IsSpace(s[0]))
    ensures TrimLeft(a + s) == s
  {
    if a == "" {
      assert a + s == s;
    } else {
      assert (a + s)[1..] == a[1..] + s;
      TrimLeftDrops(a[1..], s);
    }
  }

  lemma {:induction false} TrimRightDrops(s: string, b: string)
    requires AllSpace(b) && (s == "" || !IsSpace(s[|s| - 1]))
    ensures TrimRight(s + b) == s
  {
    if b == "" {
      assert s + b == s;
    } else {
      assert (s + b)[..|s + b| - 1] == s + b[..|b| - 1];
      TrimRightDrops(s, b[..|b| - 1]);
    }
  }

  lemma {:induction false} TrimLeftAll(a: string)
    requires AllSpace(a)
    ensures TrimLeft(a) == ""
  {
    if a != "" {
      TrimLeftAll(a[1..]);
    }
  }

  /** TrimSpace drops exactly the surrounding space. */
  lemma TrimSpaceDrops(a: string, s: string, b: string)
    requires AllSpace(a) && AllSpace(b) && Tight(s)
    ensures TrimSpace(a + s + b) == s
  {
    if s == "" {
      assert a + s + b == a + b;
      assert AllSpace(a + b);
      TrimLeftAll(a + b);
    } else {
      assert a + s + b == a + (s + b);
      TrimLeftDrops(a, s + b);
      TrimRightDrops(s, b);
    }
  }
}
