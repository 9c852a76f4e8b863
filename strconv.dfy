/**
 * The decimal integer conversions of Go's strconv package that the core calls:
 * ParseInt and ParseUint with base 10, and the FormatInt/FormatUint (Itoa)
 * formatting that the tests use to build their inputs. Both parsers return a
 * value together with an optional error, as Go does: on a syntax error the
 * value is 0, on a range error it is the bound the input overflowed.
 */
module Strconv {
  import opened Wrappers

  /** bits.UintSize: the width of Go's `int` and `uint` on the host. */
  type UintSize = w: nat | w == 32 || w == 64 witness 64

  /** The bit sizes the core passes to ParseInt and ParseUint. */
  type BitSize = b: nat | b == 8 || b == 16 || b == 32 || b == 64 witness 64

  function Pow2(b: BitSize): (p: nat)
    ensures p >= 0x100 && p % 2 == 0
  {
    if b == 8 then 0x100
    else if b == 16 then 0x1_0000
    else if b == 32 then 0x1_0000_0000
    else 0x1_0000_0000_0000_0000
  }

  function MaxUint(b: BitSize): nat { Pow2(b) - 1 }
  function MaxInt(b: BitSize): nat { Pow2(b) / 2 - 1 }
  function MinInt(b: BitSize): int { -(Pow2(b) / 2) }

  /** The two sentinel errors of strconv: ErrSyntax and ErrRange. */
  datatype ErrKind = ErrSyntax | ErrRange

  /** strconv.NumError: the function that failed, its input and the cause. */
  datatype NumError = NumError(fn: string, num: string, err: ErrKind)

  /** A (value, error) pair as returned by the strconv parsers. */
  datatype Parsed<T> = Parsed(value: T, err: Option<NumError>)

  /** A float64 as its IEEE-754 bit pattern; nothing here interprets it. */
  type Float = bv64

  /**
   * strconv.ParseFloat(s, bitSize), left abstract: whatever it returns for an
   * input and a bit size is passed in by the caller of the core.
   */
  type FloatParser = (string, UintSize) -> Parsed<Float>

  function ErrKindText(e: ErrKind): string
  {
    match e
    case ErrSyntax => "invalid syntax"
    case ErrRange => "value out of range"
  }

  /** NumError.Error(); the input is quoted without strconv.Quote's escaping. */
  function NumErrorText(e: NumError): string
  {
    "strconv." + e.fn + ": parsing \"" + e.num + "\": " + ErrKindText(e.err)
  }

  predicate IsDigit(c: char) { '0' <= c <= '9' }

  function DigitValue(c: char): nat
    requires IsDigit(c)
  {
    (c as int) - ('0' as int)
  }

  predicate AllDigits(s: string)
  {
    forall i :: 0 <= i < |s| ==> IsDigit(s[i])
  }

  /** The value of an all-digit string read after an accumulated value n, with no bound. */
  function DecimalFrom(n: nat, s: string): (v: nat)
    requires AllDigits(s)
    ensures v >= n
    decreases s
  {
    if s == [] then n else DecimalFrom(n * 10 + DigitValue(s[0]), s[1..])
  }

  /** The number an all-digit string denotes in base 10. */
  function DecimalValue(s: string): nat
    requires AllDigits(s)
  {
    DecimalFrom(0, s)
  }

  /** The length of the longest prefix of s made of decimal digits. */
  function DigitPrefixLength(s: string): (k: nat)
    ensures k <= |s| && AllDigits(s[..k])
    ensures k < |s| ==> !IsDigit(s[k])
  {
    if s == [] || !IsDigit(s[0]) then 0
    else
      var k' := DigitPrefixLength(s[1..]);
      assert s[..k' + 1] == [s[0]] + s[1..][..k'];
      k' + 1
  }

  /** Where ParseUint's digit loop stops: at the end, at a non-digit, or at an overflow. */
  datatype Scan = Scanned(n: nat) | SyntaxStop | RangeStop

  /**
   * ParseUint's loop over the bytes of its input, from an accumulated value n:
   * the first byte that is not a digit stops it with a syntax error, the first
   * digit that takes the value past maxVal stops it with a range error.
   */
  function ScanDigits(s: string, n: nat, maxVal: nat): (r: Scan)
    requires n <= maxVal
    ensures r.Scanned? ==> n <= r.n <= maxVal
  {
    if s == [] then Scanned(n)
    else if !IsDigit(s[0]) then SyntaxStop
    else
      var n1 := n * 10 + DigitValue(s[0]);
      if n1 > maxVal then RangeStop else ScanDigits(s[1..], n1, maxVal)
  }

  /** strconv.ParseUint(s, 10, bitSize). */
  function ParseUint(s: string, bitSize: BitSize): (r: Parsed<nat>)
    ensures r.value <= MaxUint(bitSize)
    ensures r.err.Some? ==> r.err.value.fn == "ParseUint" && r.err.value.num == s
    ensures r.err.Some? ==> r.value == if r.err.value.err == ErrRange then MaxUint(bitSize) else 0
  {
    if s == [] then Parsed(0, Some(NumError("ParseUint", s, ErrSyntax)))
    else
      match ScanDigits(s, 0, MaxUint(bitSize))
      case Scanned(n) => Parsed(n, None)
      case SyntaxStop => Parsed(0, Some(NumError("ParseUint", s, ErrSyntax)))
      case RangeStop => Parsed(MaxUint(bitSize), Some(NumError("ParseUint", s, ErrRange)))
  }

  /** The text after ParseInt's optional leading '+' or '-'. */
  function Magnitude(s: string): string
    requires s != []
  {
    if s[0] == '+' || s[0] == '-' then s[1..] else s
  }

  /**
   * strconv.ParseInt(s, 10, bitSize): an optional '+' or '-', then the magnitude
   * parsed by ParseUint at the same bitSize; a syntax error there is reported as
   * ParseInt's, while a range error there, or a magnitude beyond the signed
   * range, gives a range error and the bound of the sign.
   */
  function ParseInt(s: string, bitSize: BitSize): (r: Parsed<int>)
    ensures MinInt(bitSize) <= r.value <= MaxInt(bitSize)
    ensures r.err.Some? ==> r.err.value.fn == "ParseInt" && r.err.value.num == s
    ensures r.err.Some? && r.err.value.err == ErrSyntax ==> r.value == 0
    ensures r.err.Some? && r.err.value.err == ErrRange ==>
              s != [] && r.value == if s[0] == '-' then MinInt(bitSize) else MaxInt(bitSize)
  {
    if s == [] then Parsed(0, Some(NumError("ParseInt", s, ErrSyntax)))
    else
      var neg := s[0] == '-';
      var body := Magnitude(s);
      var u := ParseUint(body, bitSize);
      if u.err.Some? && u.err.value.err != ErrRange then
        Parsed(0, Some(NumError("ParseInt", s, u.err.value.err)))
      else
        var cutoff := Pow2(bitSize) / 2;
        if !neg && u.value >= cutoff then Parsed(cutoff - 1, Some(NumError("ParseInt", s, ErrRange)))
        else if neg && u.value > cutoff then Parsed(-cutoff, Some(NumError("ParseInt", s, ErrRange)))
        else
          var v: int := if neg then -(u.value as int) else u.value;
          Parsed(v, None)
  }

  function DigitChar(d: nat): (c: char)
    requires d < 10
    ensures IsDigit(c) && DigitValue(c) == d
  {
    ('0' as int + d) as char
  }

  /** strconv.FormatUint(n, 10): the shortest decimal spelling of n. */
  function FormatUint(n: nat): (s: string)
    ensures |s| > 0 && AllDigits(s)
  {
    if n < 10 then [DigitChar(n)] else FormatUint(n / 10) + [DigitChar(n % 10)]
  }

  /** strconv.FormatInt(i, 10) and strconv.Itoa: a '-' for negatives, then the magnitude. */
  function FormatInt(i: int): string
  {
    if i < 0 then "-" + FormatUint(-i) else FormatUint(i)
  }

  lemma {:induction false} ScanAppend(a: string, b: string, n: nat, m: nat)
    requires n <= m
    ensures ScanDigits(a + b, n, m) ==
              match ScanDigits(a, n, m)
              case Scanned(k) => ScanDigits(b, k, m)
              case stop => stop
  {
    if a == [] {
      assert a + b == b;
    } else {
      assert (a + b)[0] == a[0];
      assert (a + b)[1..] == a[1..] + b;
      if IsDigit(a[0]) {
        var n1 := n * 10 + DigitValue(a[0]);
        if n1 <= m {
          ScanAppend(a[1..], b, n1, m);
        }
      }
    }
  }

  lemma {:induction false} DecimalFromAppend(n: nat, a: string, b: string)
    requires AllDigits(a) && AllDigits(b)
    ensures AllDigits(a + b) && DecimalFrom(n, a + b) == DecimalFrom(DecimalFrom(n, a), b)
    decreases a
  {
    if a == [] {
      assert a + b == b;
    } else {
      assert (a + b)[0] == a[0];
      assert (a + b)[1..] == a[1..] + b;
      DecimalFromAppend(n * 10 + DigitValue(a[0]), a[1..], b);
    }
  }

  /** Formatting then reading back the digits gives the number. */
  lemma {:induction false} FormatUintValue(n: nat)
    ensures DecimalValue(FormatUint(n)) == n
  {
    if n >= 10 {
      var c := DigitChar(n % 10);
      FormatUintValue(n / 10);
      DecimalFromAppend(0, FormatUint(n / 10), [c]);
      assert DecimalFrom(n / 10, [c]) == DecimalFrom(n / 10 * 10 + n % 10, []) == n;
    } else {
      assert DecimalFrom(0, [DigitChar(n)]) == DecimalFrom(n, []);
    }
  }

  /** On an all-digit input the loop computes the plain decimal value, unless it passes the bound. */
  lemma {:induction false} ScanAllDigits(s: string, n: nat, m: nat)
    requires n <= m && AllDigits(s)
    ensures ScanDigits(s, n, m) == if DecimalFrom(n, s) > m then RangeStop else Scanned(DecimalFrom(n, s))
  {
    if s != [] {
      var n1 := n * 10 + DigitValue(s[0]);
      if n1 <= m {
        ScanAllDigits(s[1..], n1, m);
      }
    }
  }

  /**
   * ParseUint decided by the longest run of leading digits p: a range error as
   * soon as p alone overflows (whatever follows it), otherwise a syntax error
   * when anything follows p, otherwise the decimal value.
   */
  lemma ParseUintCases(s: string, b: BitSize)
    ensures var p := s[..DigitPrefixLength(s)];
      ParseUint(s, b) ==
        if s == [] then Parsed(0, Some(NumError("ParseUint", s, ErrSyntax)))
        else if DecimalValue(p) > MaxUint(b) then Parsed(MaxUint(b), Some(NumError("ParseUint", s, ErrRange)))
        else if |p| < |s| then Parsed(0, Some(NumError("ParseUint", s, ErrSyntax)))
        else Parsed(DecimalValue(s), None)
  {
    var k := DigitPrefixLength(s);
    var p, rest := s[..k], s[k..];
    assert s == p + rest;
    ScanAppend(p, rest, 0, MaxUint(b));
    ScanAllDigits(p, 0, MaxUint(b));
    if k < |s| {
      assert rest[0] == s[k];
    } else {
      assert p == s;
    }
  }

  /** ParseUint succeeds exactly on non-empty digit strings whose value fits, and returns that value. */
  lemma ParseUintSucceeds(s: string, b: BitSize)
    ensures ParseUint(s, b).err.None? <==> s != [] && AllDigits(s) && DecimalValue(s) <= MaxUint(b)
    ensures ParseUint(s, b).err.None? ==> ParseUint(s, b).value == DecimalValue(s)
  {
    ParseUintCases(s, b);
    var k := DigitPrefixLength(s);
    if k == |s| {
      assert s[..k] == s;
    } else {
      assert !IsDigit(s[k]);
    }
  }

  /**
   * ParseInt decided by its sign and by ParseUint's cases on the magnitude m
   * that follows it, with p the longest run of leading digits of m: a range
   * error with the bound of the sign once p exceeds MaxUint(b), a syntax error
   * when m is empty or anything follows p, and otherwise the signed decimal
   * value, or the bound of the sign when that value does not fit bitSize.
   */
  lemma ParseIntCases(s: string, b: BitSize)
    ensures s == [] ==> ParseInt(s, b) == Parsed(0, Some(NumError("ParseInt", s, ErrSyntax)))
    ensures s != [] ==>
      var neg := s[0] == '-';
      var m := Magnitude(s);
      var p := m[..DigitPrefixLength(m)];
      var bound: int := if neg then MinInt(b) else MaxInt(b);
      ParseInt(s, b) ==
        if m == [] then Parsed(0, Some(NumError("ParseInt", s, ErrSyntax)))
        else if DecimalValue(p) > MaxUint(b) then Parsed(bound, Some(NumError("ParseInt", s, ErrRange)))
        else if |p| < |m| then Parsed(0, Some(NumError("ParseInt", s, ErrSyntax)))
        else if !neg && DecimalValue(m) > MaxInt(b) then Parsed(bound, Some(NumError("ParseInt", s, ErrRange)))
        else if neg && DecimalValue(m) > -MinInt(b) then Parsed(bound, Some(NumError("ParseInt", s, ErrRange)))
        else Parsed(if neg then -(DecimalValue(m) as int) else DecimalValue(m), None)
  {
    if s != [] {
      ParseUintCases(Magnitude(s), b);
    }
  }

  /**
   * ParseInt succeeds exactly when a non-empty run of digits, after an optional
   * sign, spells a number within the signed range of bitSize, and returns it with its sign.
   */
  lemma ParseIntSucceeds(s: string, b: BitSize)
    ensures ParseInt(s, b).err.None? <==>
              s != [] && Magnitude(s) != [] && AllDigits(Magnitude(s)) &&
              MinInt(b) <= (if s[0] == '-' then -(DecimalValue(Magnitude(s)) as int) else DecimalValue(Magnitude(s))) <= MaxInt(b)
    ensures ParseInt(s, b).err.None? ==>
              ParseInt(s, b).value == if s[0] == '-' then -(DecimalValue(Magnitude(s)) as int) else DecimalValue(Magnitude(s))
  {
    ParseIntCases(s, b);
    if s != [] {
      var m := Magnitude(s);
      var k := DigitPrefixLength(m);
      if k == |m| {
        assert m[..k] == m;
      } else {
        assert !IsDigit(m[k]);
      }
    }
  }

  /** Every natural number parses back from its decimal spelling; past the bound it is a range error. */
  lemma ParseUintFormat(n: nat, b: BitSize)
    ensures ParseUint(FormatUint(n), b) ==
              if n <= MaxUint(b) then Parsed(n, None)
              else Parsed(MaxUint(b), Some(NumError("ParseUint", FormatUint(n), ErrRange)))
  {
    FormatUintValue(n);
    ScanAllDigits(FormatUint(n), 0, MaxUint(b));
  }

  /** Every integer parses back from FormatInt at any bit size it fits; otherwise the nearer bound with a range error. */
  lemma ParseIntFormat(i: int, b: BitSize)
    ensures ParseInt(FormatInt(i), b) ==
              if i > MaxInt(b) then Parsed(MaxInt(b) as int, Some(NumError("ParseInt", FormatInt(i), ErrRange)))
              else if i < MinInt(b) then Parsed(MinInt(b), Some(NumError("ParseInt", FormatInt(i), ErrRange)))
              else Parsed(i, None)
  {
    var s := FormatInt(i);
    var mag: nat := if i < 0 then -i else i;
    var body := FormatUint(mag);
    assert IsDigit(body[0]);
    if i < 0 {
      assert s[0] == '-' && s[1..] == body;
    } else {
      assert s == body;
    }
    ParseUintFormat(mag, b);
  }

  /**
   * A magnitude whose digits overflow the width before a non-digit is a range
   * error, not a syntax error: ParseUint stops at the overflowing digit.
   */
  lemma OverflowBeforeNonDigit()
    ensures ParseInt("300x", 8) == Parsed(127, Some(NumError("ParseInt", "300x", ErrRange)))
    ensures ParseInt("-300x", 8) == Parsed(-128, Some(NumError("ParseInt", "-300x", ErrRange)))
    ensures ParseInt("200x", 8) == Parsed(0, Some(NumError("ParseInt", "200x", ErrSyntax)))
  {
    assert Magnitude("-300x") == "300x";
    assert ScanDigits("300x", 0, 255) == RangeStop;
    assert "200x"[1..] == "00x" && "00x"[1..] == "0x" && "0x"[1..] == "x";
    assert ScanDigits("x", 200, 255) == SyntaxStop;
    assert ScanDigits("200x", 0, 255) == SyntaxStop;
  }

  /** Appending a digit 0 to a positive number's spelling spells ten times the number. */
  lemma AppendZero(n: nat)
    requires n > 0
    ensures FormatUint(n) + "0" == FormatUint(n * 10)
  {
    assert (n * 10) / 10 == n && (n * 10) % 10 == 0;
  }

  /** The bound tests: the largest value with a 0 appended is out of range at every bit size. */
  lemma MaxWithZeroAppended(b: BitSize)
    ensures ParseInt(FormatInt(MaxInt(b)) + "0", b) ==
              Parsed(MaxInt(b) as int, Some(NumError("ParseInt", FormatInt(MaxInt(b)) + "0", ErrRange)))
    ensures ParseUint(FormatUint(MaxUint(b)) + "0", b) ==
              Parsed(MaxUint(b), Some(NumError("ParseUint", FormatUint(MaxUint(b)) + "0", ErrRange)))
  {
    AppendZero(MaxInt(b));
    ParseIntFormat(MaxInt(b) * 10, b);
    AppendZero(MaxUint(b));
    ParseUintFormat(MaxUint(b) * 10, b);
  }

  /** A word such as "zero" is a syntax error for both parsers, with the value 0. */
  lemma LeadingLetterIsSyntaxError(s: string, b: BitSize)
    requires s != [] && 'a' <= s[0] <= 'z'
    ensures ParseInt(s, b) == Parsed(0, Some(NumError("ParseInt", s, ErrSyntax)))
    ensures ParseUint(s, b) == Parsed(0, Some(NumError("ParseUint", s, ErrSyntax)))
  {
  }
}
