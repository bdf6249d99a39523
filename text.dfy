/** The pieces of Go's `strings` and `strconv` packages that the loader's parsers use, with the
    semantics those packages document: `strings.Split` with a one-character separator,
    `strings.TrimSpace`, `strings.ToLower` (on the characters that matter here),
    `strconv.ParseUint` and `strconv.ParseInt` in base 10. */
module Text {
  import opened Wrappers
  import opened Errors

  /** Number of occurrences of `x` in `s`. */
  function Count<T(==)>(s: seq<T>, x: T): nat
  {
    if s == [] then 0 else (if s[0] == x then 1 else 0) + Count(s[1..], x)
  }

  /** `strings.Split(s, sep)`: the maximal pieces between separators, so "" gives [""] and a
      trailing separator gives a trailing empty piece. */
  function Split<T(==)>(s: seq<T>, sep: T): (r: seq<seq<T>>)
    ensures |r| == Count(s, sep) + 1
    ensures forall i :: 0 <= i < |r| ==> sep !in r[i]
  {
    if s == [] then [[]]
    else
      var rest := Split(s[1..], sep);
      if s[0] == sep then [[]] + rest
      else [[s[0]] + rest[0]] + rest[1..]
  }

  /** `strings.Join(pieces, sep)`, the inverse of Split. */
  function Join<T>(pieces: seq<seq<T>>, sep: T): seq<T>
  {
    if |pieces| == 0 then []
    else if |pieces| == 1 then pieces[0]
    else pieces[0] + [sep] + Join(pieces[1..], sep)
  }

  lemma {:induction false} SplitWithoutSeparator<T>(a: seq<T>, sep: T)
    requires sep !in a
    ensures Split(a, sep) == [a]
  {
    if a != [] {
      SplitWithoutSeparator(a[1..], sep);
      assert [a[0]] + a[1..] == a;
    }
  }

  lemma {:induction false} SplitAfterPiece<T>(a: seq<T>, sep: T, b: seq<T>)
    requires sep !in a
    ensures Split(a + [sep] + b, sep) == [a] + Split(b, sep)
  {
    if a == [] {
      assert (a + [sep] + b)[1..] == b;
    } else {
      assert (a + [sep] + b)[1..] == a[1..] + [sep] + b;
      SplitAfterPiece(a[1..], sep, b);
      assert [a[0]] + a[1..] == a;
    }
  }

  /** Splitting a join gives the pieces back, provided there is at least one piece and none of
      them contains the separator. */
  lemma {:induction false} SplitJoin<T>(pieces: seq<seq<T>>, sep: T)
    requires |pieces| >= 1
    requires forall i :: 0 <= i < |pieces| ==> sep !in pieces[i]
    ensures Split(Join(pieces, sep), sep) == pieces
  {
    if |pieces| == 1 {
      SplitWithoutSeparator(pieces[0], sep);
    } else {
      SplitJoin(pieces[1..], sep);
      SplitAfterPiece(pieces[0], sep, Join(pieces[1..], sep));
      assert [pieces[0]] + pieces[1..] == pieces;
    }
  }

  /** A trailing separator leaves an empty last piece. */
  lemma {:induction false} SplitTrailingSeparator<T>(s: seq<T>, sep: T)
    ensures Split(s + [sep], sep)[Count(s + [sep], sep)] == []
  {
    if s == [] {
      assert (s + [sep])[1..] == [];
    } else {
      assert (s + [sep])[1..] == s[1..] + [sep];
      SplitTrailingSeparator(s[1..], sep);
    }
  }

  /** Joining the pieces of a split gives the text back. */
  lemma {:induction false} JoinSplit<T>(s: seq<T>, sep: T)
    ensures Join(Split(s, sep), sep) == s
  {
    if s != [] {
      JoinSplit(s[1..], sep);
      var rest := Split(s[1..], sep);
      if s[0] == sep {
        assert [[]] + rest == [[]] + rest[..];
        assert ([[]] + rest)[1..] == rest;
      } else {
        var r := [[s[0]] + rest[0]] + rest[1..];
        assert r[1..] == rest[1..];
        if |rest| == 1 {
          assert rest[0] == s[1..];
        } else {
          assert Join(rest, sep) == rest[0] + [sep] + Join(rest[1..], sep);
        }
      }
    }
  }

  /** Go's `unicode.IsSpace`: the Latin-1 spaces and the Unicode White_Space characters. */
  predicate IsSpace(c: char)
  {
    c == '\t' || c == '\n' || c == '\U{000B}' || c == '\U{000C}' || c == '\r' || c == ' ' ||
    c == '\U{0085}' || c == '\U{00A0}' || c == '\U{1680}' || ('\U{2000}' <= c <= '\U{200A}') ||
    c == '\U{2028}' || c == '\U{2029}' || c == '\U{202F}' || c == '\U{205F}' || c == '\U{3000}'
  }

  /** Index of the first character that is not a space. */
  function LeadingSpaces(s: string): (i: nat)
    ensures i <= |s|
    ensures forall k :: 0 <= k < i ==> IsSpace(s[k])
    ensures i < |s| ==> !IsSpace(s[i])
  {
    if s == [] || !IsSpace(s[0]) then 0 else 1 + LeadingSpaces(s[1..])
  }

  /** Index just past the last character that is not a space. */
  function TextEnd(s: string): (j: nat)
    ensures j <= |s|
    ensures forall k :: j <= k < |s| ==> IsSpace(s[k])
    ensures j > 0 ==> !IsSpace(s[j - 1])
  {
    if s == [] || !IsSpace(s[|s| - 1]) then |s| else TextEnd(s[..|s| - 1])
  }

  /** `strings.TrimSpace`. */
  function TrimSpace(s: string): (r: string)
    ensures |r| <= |s|
    ensures r == [] || (!IsSpace(r[0]) && !IsSpace(r[|r| - 1]))
    ensures (forall k :: 0 <= k < |s| ==> !IsSpace(s[k])) ==> r == s
  {
    var i := LeadingSpaces(s);
    var t := s[i..];
    t[..TextEnd(t)]
  }

  /** `unicode.ToLower` on the characters whose lower case is ASCII: 'A'..'Z', U+0130 (capital I
      with dot above, lowered to 'i') and U+212A (Kelvin sign, lowered to 'k'). Every other
      character is left as it is. */
  function LowerChar(c: char): (r: char)
    ensures r == c || ('A' <= c <= 'Z') || c == '\U{0130}' || c == '\U{212A}'
    ensures 'A' <= c <= 'Z' ==> r as int == c as int + 32
  {
    if 'A' <= c <= 'Z' then (c as int + 32) as char
    else if c == '\U{0130}' then 'i'
    else if c == '\U{212A}' then 'k'
    else c
  }

  /** `strings.ToLower`, character by character. */
  function ToLower(s: string): string
  {
    seq(|s|, i requires 0 <= i < |s| => LowerChar(s[i]))
  }

  lemma ToLowerIdempotent(s: string)
    ensures ToLower(ToLower(s)) == ToLower(s)
  {
  }

  predicate IsDigit(c: char) { '0' <= c <= '9' }

  function DigitValue(c: char): nat
    requires IsDigit(c)
  {
    c as int - '0' as int
  }

  function DigitChar(d: nat): (c: char)
    requires d < 10
    ensures IsDigit(c) && DigitValue(c) == d
  {
    ('0' as int + d) as char
  }

  predicate AllDigits(s: string)
  {
    forall k :: 0 <= k < |s| ==> IsDigit(s[k])
  }

  /** The base-10 value of a string of digits, read most significant digit first. */
  function Value(s: string): nat
    requires AllDigits(s)
  {
    if s == [] then 0 else 10 * Value(s[..|s| - 1]) + DigitValue(s[|s| - 1])
  }

  lemma {:induction false} ValueGrows(s: string, n: nat)
    requires AllDigits(s) && n <= |s|
    ensures Value(s[..n]) <= Value(s)
    decreases |s|
  {
    if n < |s| {
      var p := s[..|s| - 1];
      ValueGrows(p, n);
      assert p[..n] == s[..n];
      assert Value(s) == 10 * Value(p) + DigitValue(s[|s| - 1]);
    } else {
      assert s[..n] == s;
    }
  }

  /** 10^n. */
  function Pow10(n: nat): (r: nat)
    ensures r >= 1
  {
    if n == 0 then 1 else 10 * Pow10(n - 1)
  }

  lemma {:induction false} Pow10Grows(a: nat, b: nat)
    requires a <= b
    ensures Pow10(a) <= Pow10(b)
    decreases b
  {
    if a < b {
      Pow10Grows(a, b - 1);
    }
  }

  /** n digits hold a value below 10^n. */
  lemma {:induction false} ValueBelowPow10(s: string)
    requires AllDigits(s)
    ensures Value(s) < Pow10(|s|)
  {
    if s != [] {
      ValueBelowPow10(s[..|s| - 1]);
    }
  }

  /** 10^19 < 2^64: up to nineteen digits never overflow an unsigned 64-bit value. */
  lemma NineteenDigitsFit()
    ensures forall n: nat :: n <= 19 ==> Pow10(n) <= 0x1_0000_0000_0000_0000
  {
    assert Pow10(4) == 10000;
    assert Pow10(8) == 10000 * Pow10(4) by {
      assert Pow10(8) == 10 * Pow10(7) == 100 * Pow10(6) == 1000 * Pow10(5) == 10000 * Pow10(4);
    }
    assert Pow10(12) == 10000 * Pow10(8) by {
      assert Pow10(12) == 10 * Pow10(11) == 100 * Pow10(10) == 1000 * Pow10(9) == 10000 * Pow10(8);
    }
    assert Pow10(16) == 10000 * Pow10(12) by {
      assert Pow10(16) == 10 * Pow10(15) == 100 * Pow10(14) == 1000 * Pow10(13) == 10000 * Pow10(12);
    }
    assert Pow10(19) == 1000 * Pow10(16) by {
      assert Pow10(19) == 10 * Pow10(18) == 100 * Pow10(17) == 1000 * Pow10(16);
    }
    forall n: nat | n <= 19
      ensures Pow10(n) <= 0x1_0000_0000_0000_0000
    {
      Pow10Grows(n, 19);
    }
  }

  /** The digit loop of `strconv.ParseUint`, from position `i` with the value `n` of the digits
      before it: a non-digit is a syntax error, a value above `max` a range error, whichever
      comes first from the left. */
  function ParseDigitsFrom(s: string, i: nat, n: nat, max: nat): (r: Result<nat>)
    requires i <= |s| && AllDigits(s[..i]) && n == Value(s[..i]) && n <= max
    ensures r.Ok? <==> AllDigits(s) && Value(s) <= max
    ensures r.Ok? ==> r.value == Value(s)
    ensures r.Err? ==> r.error == NumSyntax(s) || r.error == NumRange(s)
    ensures AllDigits(s) && r.Err? ==> r.error == NumRange(s)
    ensures Pow10(|s|) <= max + 1 && !AllDigits(s) ==> r == Err(NumSyntax(s))
    decreases |s| - i
  {
    if i == |s| then
      assert s[..i] == s;
      Ok(n)
    else if !IsDigit(s[i]) then
      Err(NumSyntax(s))
    else
      assert s[..i + 1][..i] == s[..i];
      var n1 := 10 * n + DigitValue(s[i]);
      if n1 > max then
        ValueBelowPow10(s[..i + 1]);
        Pow10Grows(i + 1, |s|);
        (if AllDigits(s) then ValueGrows(s, i + 1); Err(NumRange(s)) else Err(NumRange(s)))
      else ParseDigitsFrom(s, i + 1, n1, max)
  }

  /** The bit sizes the loader passes to strconv: 32 and 64. */
  predicate IsBitSize(bits: nat) { bits == 32 || bits == 64 }

  /** 2^bits: the first value out of range for an unsigned integer of that size. */
  function Limit(bits: nat): nat
    requires IsBitSize(bits)
  {
    if bits == 32 then 0x1_0000_0000 else 0x1_0000_0000_0000_0000
  }

  /** 2^(bits-1): the first value out of range for a signed integer of that size. */
  function SignedLimit(bits: nat): nat
    requires IsBitSize(bits)
  {
    if bits == 32 then 0x8000_0000 else 0x8000_0000_0000_0000
  }

  /** `strconv.ParseUint(s, 10, bits)`: decimal digits only (no sign, no underscore), at least
      one of them, and a value below 2^bits. */
  function ParseUint(s: string, bits: nat): (r: Result<nat>)
    requires IsBitSize(bits)
    ensures r.Ok? <==> |s| > 0 && AllDigits(s) && Value(s) < Limit(bits)
    ensures r.Ok? ==> r.value == Value(s)
    ensures r.Err? ==> r.error == NumSyntax(s) || r.error == NumRange(s)
    ensures |s| > 0 && AllDigits(s) && r.Err? ==> r.error == NumRange(s)
    ensures Pow10(|s|) <= Limit(bits) && !(|s| > 0 && AllDigits(s)) ==> r == Err(NumSyntax(s))
  {
    if s == [] then Err(NumSyntax(s))
    else ParseDigitsFrom(s, 0, 0, Limit(bits) - 1)
  }

  /** The sign and the digits of a signed decimal text. */
  function SignOf(s: string): (bool, string)
  {
    if |s| > 0 && s[0] == '-' then (true, s[1..])
    else if |s| > 0 && s[0] == '+' then (false, s[1..])
    else (false, s)
  }

  /** `strconv.ParseInt(s, 10, bits)`: an optional '+' or '-', then the magnitude read by
      ParseUint at 64 bits whatever `bits` is, then a value in [-2^(bits-1), 2^(bits-1) - 1].
      A bad digit is a syntax error unless the magnitude overflowed 64 bits before it; errors
      carry the whole text. */
  function ParseInt(s: string, bits: nat): (r: Result<int>)
    requires IsBitSize(bits)
    ensures var (neg, digits) := SignOf(s);
      r.Ok? <==> |digits| > 0 && AllDigits(digits) &&
                 (if neg then Value(digits) <= SignedLimit(bits) else Value(digits) < SignedLimit(bits))
    ensures var (neg, digits) := SignOf(s);
      r.Ok? ==> AllDigits(digits) && r.value == (if neg then 0 - Value(digits) else Value(digits))
    ensures r.Err? ==> r.error == NumSyntax(s) || r.error == NumRange(s)
    ensures var (neg, digits) := SignOf(s);
      |digits| > 0 && AllDigits(digits) && r.Err? ==> r.error == NumRange(s)
    ensures var (neg, digits) := SignOf(s);
      |digits| <= 19 && !(|digits| > 0 && AllDigits(digits)) ==> r == Err(NumSyntax(s))
  {
    NineteenDigitsFit();
    if s == [] then Err(NumSyntax(s))
    else
      var (neg, digits) := SignOf(s);
      match ParseUint(digits, 64)
      case Err(NumSyntax(_)) => Err(NumSyntax(s))
      case Err(_) => Err(NumRange(s))
      case Ok(un) =>
        if !neg && un >= SignedLimit(bits) then Err(NumRange(s))
        else if neg && un > SignedLimit(bits) then Err(NumRange(s))
        else Ok(if neg then 0 - un else un)
  }

  /** A bad digit after an out-of-range 32-bit magnitude is still a syntax error, since the
      magnitude is read at 64 bits. */
  lemma ParseIntSyntaxBeforeRange()
    ensures ParseInt("5000000000x", 32) == Err(NumSyntax("5000000000x"))
  {
    var s := "5000000000x";
    assert SignOf(s) == (false, s);
    assert !IsDigit(s[10]);
  }

  /** `strconv.FormatUint(n, 10)`: the shortest decimal text of `n`. */
  function FormatDecimal(n: nat): (r: string)
    ensures |r| > 0 && AllDigits(r) && Value(r) == n
    ensures r[0] != '0' || n == 0
  {
    if n < 10 then [DigitChar(n)]
    else
      var r := FormatDecimal(n / 10) + [DigitChar(n % 10)];
      assert r[..|r| - 1] == FormatDecimal(n / 10);
      r
  }

  /** `strconv.FormatInt(n, 10)`. */
  function FormatInt(n: int): (r: string)
  {
    if n < 0 then "-" + FormatDecimal(0 - n) else FormatDecimal(n)
  }

  lemma ParseIntFormatInt(n: int, bits: nat)
    requires IsBitSize(bits) && 0 - SignedLimit(bits) <= n < SignedLimit(bits)
    ensures ParseInt(FormatInt(n), bits) == Ok(n)
  {
    var s := FormatInt(n);
    if n < 0 {
      assert s[1..] == FormatDecimal(0 - n);
    } else {
      var d := FormatDecimal(n);
      assert IsDigit(d[0]);
    }
  }

  /** The value fits a signed 32-bit integer. */
  predicate InInt32(n: int) { -0x8000_0000 <= n < 0x8000_0000 }

  /** Signed decimal text holds neither a comma nor a space. */
  lemma {:induction false} FormatIntHasNo(n: int, c: char)
    requires c == ',' || c == ' '
    ensures c !in FormatInt(n)
  {
    var d := FormatDecimal(if n < 0 then 0 - n else n);
    assert forall k :: 0 <= k < |d| ==> IsDigit(d[k]);
    if n < 0 {
      assert FormatInt(n) == "-" + d;
    }
  }

  /** ParseUint reads back the decimal text of every value below 2^bits. */
  lemma ParseUintFormatDecimal(n: nat, bits: nat)
    requires IsBitSize(bits) && n < Limit(bits)
    ensures ParseUint(FormatDecimal(n), bits) == Ok(n)
  {
  }

  /** Decimal text holds no spaces, so trimming leaves it alone. */
  lemma TrimDecimal(n: nat)
    ensures TrimSpace(FormatDecimal(n)) == FormatDecimal(n)
  {
    var d := FormatDecimal(n);
    forall k | 0 <= k < |d| ensures !IsSpace(d[k]) {
      assert IsDigit(d[k]);
    }
  }

  /** Signed decimal text holds no spaces either. */
  lemma TrimInt(n: int)
    ensures TrimSpace(FormatInt(n)) == FormatInt(n)
  {
    var d := FormatDecimal(if n < 0 then 0 - n else n);
    assert forall k :: 0 <= k < |d| ==> IsDigit(d[k]);
    var s := FormatInt(n);
    forall k | 0 <= k < |s| ensures !IsSpace(s[k]) {
      if n < 0 && k > 0 {
        assert s[k] == d[k - 1];
      }
    }
  }
}
