/** C numerals: the scanning behind `strtoul` and `sscanf "%u"`, and the writing of
    numerals that they read back. */
module Numerals {

  /** `~(size_t) 0`, which is also ULONG_MAX on the 64-bit targets. */
  const SIZE_MAX: nat := 0xFFFF_FFFF_FFFF_FFFF

  function Lower(c: char): char {
    if 'A' <= c <= 'Z' then (c as int + 32) as char else c
  }

  predicate IsSpace(c: char) {
    c == ' ' || '\t' <= c <= '\r'
  }

  /** The value of a digit, or 99 for a character that is no digit in any base. */
  function DigitValue(c: char): nat {
    if '0' <= c <= '9' then c as int - '0' as int
    else if 'a' <= Lower(c) <= 'z' then Lower(c) as int - 'a' as int + 10
    else 99
  }

  predicate AllDigits(s: string, base: nat) {
    forall i :: 0 <= i < |s| ==> DigitValue(s[i]) < base
  }

  /** The number that the digits of `s` continue `acc` to. */
  function Value(s: string, base: nat, acc: nat): nat {
    if s == [] then acc else Value(s[1..], base, acc * base + DigitValue(s[0]))
  }

  /** How many leading characters of `s` satisfy the test. */
  function CountSpaces(s: string): (n: nat)
    ensures n <= |s|
  {
    if s != [] && IsSpace(s[0]) then 1 + CountSpaces(s[1..]) else 0
  }

  function CountDigits(s: string, base: nat): (n: nat)
    ensures n <= |s|
  {
    if s != [] && DigitValue(s[0]) < base then 1 + CountDigits(s[1..], base) else 0
  }

  /** What `strtoul` reports: the value, the number of characters used (0: no number was
      found) and whether it raised ERANGE. */
  datatype Scan = Scan(value: nat, used: nat, outOfRange: bool)

  /** `strtoul (s, &end, base)` for base 10 or 16: blanks, a sign, in base 16 an optional
      0x, digits. A negative number wraps around, one too large saturates. */
  function StrToUl(s: string, base: nat): (r: Scan)
    ensures r.value <= SIZE_MAX && r.used <= |s|
  {
    if s != [] && IsSpace(s[0]) then After(1, StrToUl(s[1..], base))
    else if s != [] && s[0] == '-' then After(1, Negated(Magnitude(s[1..], base)))
    else if s != [] && s[0] == '+' then After(1, Magnitude(s[1..], base))
    else Magnitude(s, base)
  }

  /** The scan of what follows `n` characters. */
  function After(n: nat, r: Scan): Scan {
    if r.used == 0 then r else r.(used := n + r.used)
  }

  function Negated(r: Scan): Scan
    requires r.value <= SIZE_MAX
  {
    if r.outOfRange then r else r.(value := if r.value == 0 then 0 else SIZE_MAX + 1 - r.value)
  }

  function Magnitude(s: string, base: nat): (r: Scan)
    ensures r.value <= SIZE_MAX && r.used <= |s|
  {
    if base == 16 && |s| > 2 && s[0] == '0' && Lower(s[1]) == 'x' && DigitValue(s[2]) < 16
    then After(2, Digits(s[2..], base))
    else Digits(s, base)
  }

  function Digits(s: string, base: nat): (r: Scan)
    ensures r.value <= SIZE_MAX && r.used <= |s|
  {
    var n := CountDigits(s, base);
    var v := Value(s[..n], base, 0);
    if n == 0 then Scan(0, 0, false)
    else if v > SIZE_MAX then Scan(SIZE_MAX, n, true)
    else Scan(v, n, false)
  }

  /** `sscanf (s, "HTTP/%u.%u %u ", ...)`; None unless all three numbers are read. */
  datatype StatusScan = NoStatus | StatusScan(major: nat, minor: nat, status: nat)

  function Low32(n: nat): nat {
    if n < 0x1_0000_0000 then n else n % 0x1_0000_0000
  }

  /** One "%u": `strtoul` cut down to 32 bits. */
  function ScanUnsigned(s: string): (r: Scan)
    ensures r.used <= |s|
  {
    var r := StrToUl(s, 10);
    r.(value := Low32(r.value))
  }

  function ScanStatusLine(s: string): StatusScan {
    if "HTTP/" <= s then ScanFromMajor(s[5..]) else NoStatus
  }

  function ScanFromMajor(s: string): StatusScan {
    var major := ScanUnsigned(s);
    if major.used == 0 then NoStatus else ScanFromDot(major.value, s[major.used..])
  }

  function ScanFromDot(major: nat, s: string): StatusScan {
    if s != [] && s[0] == '.' then ScanFromMinor(major, s[1..]) else NoStatus
  }

  function ScanFromMinor(major: nat, s: string): StatusScan {
    var minor := ScanUnsigned(s);
    if minor.used == 0 then NoStatus else ScanFromStatus(major, minor.value, s[minor.used..])
  }

  function ScanFromStatus(major: nat, minor: nat, s: string): StatusScan {
    var status := ScanUnsigned(s);
    if status.used == 0 then NoStatus else StatusScan(major, minor, status.value)
  }

  // ---------------------------------------------------------------- writing numerals

  const DIGITS := "0123456789ABCDEF"
  const SMALL_DIGITS := "0123456789abcdef"

  /** The white space of C. */
  const BLANKS := " \t\n\U{0B}\U{0C}\r"

  predicate IsDigit(c: char, d: nat) {
    d < 16 && (c == DIGITS[d] || c == SMALL_DIGITS[d])
  }

  /** The digits, in either case and with any zeros in front, are a numeral for n. */
  predicate Denotes(digits: string, n: nat, base: nat)
    requires base in {10, 16}
    decreases |digits|
  {
    && |digits| > 0 && IsDigit(digits[|digits| - 1], n % base)
    && if |digits| == 1 then n < base else Denotes(digits[..|digits| - 1], n / base, base)
  }

  datatype Sign = NoSign | Plus | Minus
  datatype Prefix = NoPrefix | SmallX | BigX

  function SignText(sign: Sign): string {
    match sign
    case NoSign => ""
    case Plus => "+"
    case Minus => "-"
  }

  function PrefixText(prefix: Prefix): string {
    match prefix
    case NoPrefix => ""
    case SmallX => "0x"
    case BigX => "0X"
  }

  /** What strtoul takes for a number: white space, a sign, in base 16 a prefix, and digits. */
  datatype Subject = Subject(blanks: string, sign: Sign, prefix: Prefix, digits: string)

  function Text(w: Subject): string {
    w.blanks + (SignText(w.sign) + (PrefixText(w.prefix) + w.digits))
  }

  predicate AllBlank(s: string) {
    forall i :: 0 <= i < |s| ==> s[i] in BLANKS
  }

  predicate Written(w: Subject, n: nat, base: nat)
    requires base in {10, 16}
  {
    AllBlank(w.blanks) && (w.prefix.NoPrefix? || base == 16) && Denotes(w.digits, n, base)
  }

  predicate StartsWithDigit(s: string, base: nat)
    requires base in {10, 16}
  {
    s != [] && (s[0] in DIGITS[..base] || s[0] in SMALL_DIGITS[..base])
  }

  /** What stands behind a numeral and does not go on with it. */
  predicate GoesNoFurther(prefix: Prefix, digits: string, rest: string, base: nat)
    requires base in {10, 16}
  {
    && !StartsWithDigit(rest, base)
    && !(base == 16 && prefix.NoPrefix? && digits == "0"
         && rest != [] && rest[0] in "xX" && StartsWithDigit(rest[1..], 16))
  }

  // ---------------------------------------------------------------- what the characters mean

  lemma DigitHasValue(c: char, d: nat)
    requires IsDigit(c, d)
    ensures DigitValue(c) == d && c !in "xX+-\n\r\0" && !IsSpace(c)
  {
  }

  lemma InTable(c: char, d: nat)
    requires IsDigit(c, d)
    ensures forall base :: d < base <= 16 ==> c in DIGITS[..base] || c in SMALL_DIGITS[..base]
  {
    forall base | d < base <= 16 ensures c in DIGITS[..base] || c in SMALL_DIGITS[..base] {
      assert DIGITS[..base][d] == DIGITS[d] && SMALL_DIGITS[..base][d] == SMALL_DIGITS[d];
    }
  }

  /** Digits are what the table says, no less. */
  lemma ValueHasDigit(c: char, base: nat)
    requires base in {10, 16} && DigitValue(c) < base
    ensures IsDigit(c, DigitValue(c)) && StartsWithDigit([c], base)
  {
    InTable(c, DigitValue(c));
  }

  lemma BlankIsSpace(c: char)
    ensures c in BLANKS <==> IsSpace(c)
  {
  }

  lemma {:induction false} ValueOfAppend(a: string, b: string, base: nat, acc: nat)
    ensures Value(a + b, base, acc) == Value(b, base, Value(a, base, acc))
  {
    if a == [] {
      assert a + b == b;
    } else {
      assert (a + b)[1..] == a[1..] + b;
      ValueOfAppend(a[1..], b, base, acc * base + DigitValue(a[0]));
    }
  }

  /** A numeral is all digits; in particular it has no blank, sign, line end or NUL. */
  lemma {:induction false} NumeralChars(digits: string, n: nat, base: nat)
    requires base in {10, 16} && Denotes(digits, n, base)
    ensures AllDigits(digits, base) && forall c :: c in digits ==> c !in "xX+-\n\r\0" && !IsSpace(c)
    decreases |digits|
  {
    var m := |digits| - 1;
    DigitHasValue(digits[m], n % base);
    assert digits == digits[..m] + [digits[m]];
    if m > 0 {
      NumeralChars(digits[..m], n / base, base);
    }
  }

  lemma {:induction false} ValueOfNumeral(digits: string, n: nat, base: nat)
    requires base in {10, 16} && Denotes(digits, n, base)
    ensures Value(digits, base, 0) == n
    decreases |digits|
  {
    var m := |digits| - 1;
    DigitHasValue(digits[m], n % base);
    assert digits == digits[..m] + [digits[m]] && [digits[m]][1..] == [];
    ValueOfAppend(digits[..m], [digits[m]], base, 0);
    if m > 0 {
      ValueOfNumeral(digits[..m], n / base, base);
    } else {
      assert digits[..m] == [];
    }
  }

  lemma {:induction false} CountDigitsOfAppend(a: string, rest: string, base: nat)
    requires AllDigits(a, base) && (rest != [] ==> DigitValue(rest[0]) >= base)
    ensures CountDigits(a + rest, base) == |a|
  {
    if a == [] {
      assert a + rest == rest;
    } else {
      assert (a + rest)[1..] == a[1..] + rest;
      CountDigitsOfAppend(a[1..], rest, base);
    }
  }

  lemma NoDigit(rest: string, base: nat)
    requires base in {10, 16}
    ensures StartsWithDigit(rest, base) <==> rest != [] && DigitValue(rest[0]) < base
  {
    if rest != [] && DigitValue(rest[0]) < base {
      ValueHasDigit(rest[0], base);
    }
    if StartsWithDigit(rest, base) {
      TableHasValue(rest[0], base);
    }
  }

  lemma TableHasValue(c: char, base: nat)
    requires base in {10, 16} && (c in DIGITS[..base] || c in SMALL_DIGITS[..base])
    ensures DigitValue(c) < base
  {
    var d: nat :| d < base && (c == DIGITS[..base][d] || c == SMALL_DIGITS[..base][d]);
    DigitHasValue(c, d);
  }

  /** The result for a magnitude. */
  function Saturated(n: nat, used: nat): Scan {
    Scan(if n > SIZE_MAX then SIZE_MAX else n, used, n > SIZE_MAX)
  }

  lemma DigitsReadBack(digits: string, n: nat, base: nat, rest: string)
    requires base in {10, 16} && Denotes(digits, n, base) && !StartsWithDigit(rest, base)
    ensures Digits(digits + rest, base) == Saturated(n, |digits|)
  {
    NoDigit(rest, base);
    NumeralChars(digits, n, base);
    CountDigitsOfAppend(digits, rest, base);
    assert (digits + rest)[..|digits|] == digits;
    ValueOfNumeral(digits, n, base);
  }

  lemma PlainMagnitude(digits: string, n: nat, base: nat, rest: string)
    requires base in {10, 16} && Denotes(digits, n, base) && GoesNoFurther(NoPrefix, digits, rest, base)
    ensures Magnitude(digits + rest, base) == Saturated(n, |digits|)
  {
    DigitsReadBack(digits, n, base, rest);
    NumeralChars(digits, n, base);
    var s := digits + rest;
    if |digits| > 1 {
      assert s[1] == digits[1] && digits[1] in digits;
    } else if base == 16 && |s| > 2 && s[0] == '0' && Lower(s[1]) == 'x' {
      assert s[1] == rest[0] && s[2] == rest[1..][0] && digits == "0";
      NoDigit(rest[1..], 16);
    }
  }

  lemma PrefixedMagnitude(prefix: Prefix, digits: string, n: nat, rest: string)
    requires Denotes(digits, n, 16) && !StartsWithDigit(rest, 16) && !prefix.NoPrefix?
    ensures Magnitude(PrefixText(prefix) + (digits + rest), 16) == Saturated(n, 2 + |digits|)
  {
    DigitsReadBack(digits, n, 16, rest);
    NumeralChars(digits, n, 16);
    var s := PrefixText(prefix) + (digits + rest);
    assert s[2..] == digits + rest && s[2] == digits[0] && digits[0] in digits;
  }

  lemma MagnitudeReadBack(prefix: Prefix, digits: string, n: nat, base: nat, rest: string)
    requires base in {10, 16} && Denotes(digits, n, base) && (prefix.NoPrefix? || base == 16)
    requires GoesNoFurther(prefix, digits, rest, base)
    ensures Magnitude(PrefixText(prefix) + (digits + rest), base) == Saturated(n, |PrefixText(prefix)| + |digits|)
  {
    if prefix.NoPrefix? {
      PlainMagnitude(digits, n, base, rest);
      assert PrefixText(prefix) + (digits + rest) == digits + rest;
    } else {
      PrefixedMagnitude(prefix, digits, n, rest);
    }
  }

  /** The result for a number with its sign: a negative one wraps around. */
  function Result(sign: Sign, n: nat, used: nat): Scan {
    if n > SIZE_MAX then Scan(SIZE_MAX, used, true)
    else Scan(if sign.Minus? && n > 0 then SIZE_MAX + 1 - n else n, used, false)
  }

  lemma NeitherBlankNorSign(prefix: Prefix, digits: string, n: nat, base: nat, rest: string)
    requires base in {10, 16} && Denotes(digits, n, base)
    ensures var s := PrefixText(prefix) + (digits + rest); s != [] && !IsSpace(s[0]) && s[0] != '-' && s[0] != '+'
  {
    NumeralChars(digits, n, base);
    assert digits[0] in digits;
    assert (PrefixText(prefix) + (digits + rest))[0] == if prefix.NoPrefix? then digits[0] else '0';
  }

  lemma SignIsTaken(sign: Sign, s: string, base: nat)
    requires sign.NoSign? && s != [] ==> !IsSpace(s[0]) && s[0] != '-' && s[0] != '+'
    ensures StrToUl(SignText(sign) + s, base)
         == After(|SignText(sign)|, if sign.Minus? then Negated(Magnitude(s, base)) else Magnitude(s, base))
  {
    if sign.NoSign? {
      assert SignText(sign) + s == s;
    } else {
      assert (SignText(sign) + s)[1..] == s;
    }
  }

  lemma ResultOf(sign: Sign, n: nat, k: nat, used: nat)
    requires used > 0
    ensures After(k, if sign.Minus? then Negated(Saturated(n, used)) else Saturated(n, used))
         == Result(sign, n, k + used)
  {
  }

  lemma SignedReadBack(w: Subject, n: nat, base: nat, rest: string)
    requires base in {10, 16} && Written(w, n, base) && GoesNoFurther(w.prefix, w.digits, rest, base)
    ensures StrToUl(SignText(w.sign) + (PrefixText(w.prefix) + (w.digits + rest)), base)
         == Result(w.sign, n, |SignText(w.sign)| + (|PrefixText(w.prefix)| + |w.digits|))
  {
    MagnitudeReadBack(w.prefix, w.digits, n, base, rest);
    NeitherBlankNorSign(w.prefix, w.digits, n, base, rest);
    SignIsTaken(w.sign, PrefixText(w.prefix) + (w.digits + rest), base);
    ResultOf(w.sign, n, |SignText(w.sign)|, |PrefixText(w.prefix)| + |w.digits|);
  }

  lemma {:induction false} BlanksAreSkipped(blanks: string, s: string, base: nat)
    requires AllBlank(blanks)
    ensures StrToUl(blanks + s, base) == After(|blanks|, StrToUl(s, base))
  {
    if blanks == [] {
      assert blanks + s == s;
    } else {
      BlankIsSpace(blanks[0]);
      assert (blanks + s)[1..] == blanks[1..] + s;
      BlanksAreSkipped(blanks[1..], s, base);
    }
  }

  /** `strtoul` reads back what has been written in any of the ways that C knows, and stops behind
      it. */
  lemma ReadBack(w: Subject, n: nat, base: nat, rest: string)
    requires base in {10, 16} && Written(w, n, base) && GoesNoFurther(w.prefix, w.digits, rest, base)
    ensures StrToUl(Text(w) + rest, base) == Result(w.sign, n, |Text(w)|)
  {
    var s := SignText(w.sign) + (PrefixText(w.prefix) + (w.digits + rest));
    assert Text(w) + rest == w.blanks + s;
    SignedReadBack(w, n, base, rest);
    BlanksAreSkipped(w.blanks, s, base);
  }

  /** And it finds no number where there is none. */
  lemma ReadNothing(blanks: string, sign: Sign, rest: string, base: nat)
    requires base in {10, 16} && AllBlank(blanks) && !StartsWithDigit(rest, base)
    requires sign.NoSign? && rest != [] ==> rest[0] !in BLANKS && rest[0] !in "+-"
    ensures StrToUl(blanks + (SignText(sign) + rest), base) == Scan(0, 0, false)
  {
    NoDigit(rest, base);
    if rest != [] {
      BlankIsSpace(rest[0]);
    }
    SignIsTaken(sign, rest, base);
    BlanksAreSkipped(blanks, SignText(sign) + rest, base);
  }

  /** Digits alone, and with one blank before them. */
  lemma ReadBackDigits(digits: string, n: nat, base: nat, rest: string)
    requires base in {10, 16} && n <= SIZE_MAX
    requires Denotes(digits, n, base) && GoesNoFurther(NoPrefix, digits, rest, base)
    ensures StrToUl(digits + rest, base) == Scan(n, |digits|, false)
  {
    var w := Subject("", NoSign, NoPrefix, digits);
    ReadBack(w, n, base, rest);
    assert Text(w) == digits;
  }

  lemma ReadBackAfterBlank(digits: string, n: nat, base: nat, rest: string)
    requires base in {10, 16} && n <= SIZE_MAX
    requires Denotes(digits, n, base) && GoesNoFurther(NoPrefix, digits, rest, base)
    ensures StrToUl(" " + (digits + rest), base) == Scan(n, 1 + |digits|, false)
  {
    var w := Subject(" ", NoSign, NoPrefix, digits);
    ReadBack(w, n, base, rest);
    assert Text(w) + rest == " " + (digits + rest);
  }

  // ---------------------------------------------------------------- the shortest numeral

  /** The shortest numeral for `n`. */
  function Numeral(n: nat, base: nat): (s: string)
    requires base in {10, 16}
    ensures s != []
  {
    if n < base then [SMALL_DIGITS[n]] else Numeral(n / base, base) + [SMALL_DIGITS[n % base]]
  }

  lemma {:induction false} NumeralDenotes(n: nat, base: nat)
    requires base in {10, 16}
    ensures Denotes(Numeral(n, base), n, base)
  {
    if n >= base {
      NumeralDenotes(n / base, base);
      var s := Numeral(n, base);
      assert s[..|s| - 1] == Numeral(n / base, base);
    }
  }

  function Exp2(k: nat): nat {
    if k == 0 then 1 else 2 * Exp2(k - 1)
  }

  lemma {:induction false} Exp2Sum(a: nat, b: nat)
    ensures Exp2(a + b) == Exp2(a) * Exp2(b)
  {
    if a > 0 {
      Exp2Sum(a - 1, b);
      assert Exp2(a + b) == 2 * Exp2(a + b - 1);
    }
  }

  lemma {:induction false} NumeralLength(n: nat, base: nat, k: nat)
    requires base in {10, 16} && k > 0 && n < Exp2(k)
    ensures |Numeral(n, base)| <= k
  {
    if n >= base {
      var q := n / base;
      assert q * base <= n && q * 2 <= q * base;
      assert Exp2(k) == 2 * Exp2(k - 1);
      NumeralLength(n / base, base, k - 1);
    }
  }

  lemma Exp2Twice(k: nat, v: nat)
    requires Exp2(k) == v
    ensures Exp2(2 * k) == v * v
  {
    Exp2Sum(k, k);
  }

  lemma Exp2Of64()
    ensures Exp2(64) == SIZE_MAX + 1
  {
    assert Exp2(4) == 16;
    Exp2Twice(4, 16);
    Exp2Twice(8, 256);
    Exp2Twice(16, 0x1_0000);
    Exp2Twice(32, 0x1_0000_0000);
  }

  /** The numeral of a size_t takes at most 64 characters. */
  lemma SizeNumeralLength(n: nat, base: nat)
    requires base in {10, 16} && n <= SIZE_MAX
    ensures |Numeral(n, base)| <= 64
  {
    Exp2Of64();
    NumeralLength(n, base, 64);
  }

  // ---------------------------------------------------------------- status lines

  /** A status line as servers write it (RFC 7230 section 3.1.2). */
  function StatusText(major: nat, minor: nat, status: nat, reason: string): string {
    "HTTP/" + (Numeral(major, 10) + ("." + (Numeral(minor, 10) + (" " + (Numeral(status, 10) + (" " + reason))))))
  }

  /** What "%u" reads is cut down to an unsigned int. */
  lemma ScanIsCut(digits: string, n: nat, rest: string)
    requires n <= SIZE_MAX && Denotes(digits, n, 10) && !StartsWithDigit(rest, 10)
    ensures ScanUnsigned(digits + rest) == Scan(n % 0x1_0000_0000, |digits|, false)
  {
    ReadBackDigits(digits, n, 10, rest);
  }

  lemma NoDigitHere(c: char, rest: string)
    requires c == '.' || c == ' '
    ensures !StartsWithDigit([c] + rest, 10)
  {
    NoDigit([c] + rest, 10);
  }

  lemma ReadBackStatus(major: nat, minor: nat, n: nat, rest: string)
    requires n < 0x1_0000_0000 && !StartsWithDigit(rest, 10)
    ensures ScanFromStatus(major, minor, " " + (Numeral(n, 10) + rest)) == StatusScan(major, minor, n)
  {
    NumeralDenotes(n, 10);
    ReadBackAfterBlank(Numeral(n, 10), n, 10, rest);
  }

  lemma ReadBackMinor(major: nat, n: nat, rest: string)
    requires n < 0x1_0000_0000 && !StartsWithDigit(rest, 10)
    ensures ScanFromMinor(major, Numeral(n, 10) + rest) == ScanFromStatus(major, n, rest)
  {
    NumeralDenotes(n, 10);
    ReadBackDigits(Numeral(n, 10), n, 10, rest);
    assert (Numeral(n, 10) + rest)[|Numeral(n, 10)|..] == rest;
  }

  lemma ReadBackMajor(n: nat, rest: string)
    requires n < 0x1_0000_0000 && !StartsWithDigit(rest, 10)
    ensures ScanFromMajor(Numeral(n, 10) + rest) == ScanFromDot(n, rest)
  {
    NumeralDenotes(n, 10);
    ReadBackDigits(Numeral(n, 10), n, 10, rest);
    assert (Numeral(n, 10) + rest)[|Numeral(n, 10)|..] == rest;
  }

  lemma StatusReadBack(major: nat, minor: nat, status: nat, reason: string)
    requires major < 0x1_0000_0000 && minor < 0x1_0000_0000 && status < 0x1_0000_0000
    ensures ScanStatusLine(StatusText(major, minor, status, reason)) == StatusScan(major, minor, status)
  {
    var third := " " + (Numeral(status, 10) + (" " + reason));
    var second := Numeral(minor, 10) + third;
    assert StatusText(major, minor, status, reason)[5..] == Numeral(major, 10) + ("." + second);
    assert ("." + second)[1..] == second;
    NoDigitHere('.', second);
    NoDigitHere(' ', Numeral(status, 10) + (" " + reason));
    NoDigitHere(' ', reason);
    ReadBackMajor(major, "." + second);
    ReadBackMinor(major, minor, third);
    ReadBackStatus(major, minor, status, " " + reason);
  }

  /** What a line has where a status line has its numbers. */
  datatype Flaw = NoHttp(line: string)
    | NoMajor(rest: string)
    | NoDot(major: string, n: nat, rest: string)
    | NoMinor(major: string, n: nat, rest: string)
    | NoCode(major: string, n: nat, minor: string, m: nat, rest: string)

  function FlawedLine(f: Flaw): string {
    match f
    case NoHttp(line) => line
    case NoMajor(rest) => "HTTP/" + rest
    case NoDot(major, _, rest) => "HTTP/" + (major + rest)
    case NoMinor(major, _, rest) => "HTTP/" + (major + ("." + rest))
    case NoCode(major, _, minor, _, rest) => "HTTP/" + (major + ("." + (minor + rest)))
  }

  /** There is no number here: nothing but blanks, or something that is no number behind them. */
  predicate NoNumber(s: string) {
    s != [] ==> s[0] !in BLANKS && s[0] !in "+-" && !StartsWithDigit(s, 10)
  }

  predicate IsFlaw(f: Flaw) {
    match f
    case NoHttp(line) => |line| < 5 || line[..5] != "HTTP/"
    case NoMajor(rest) => NoNumber(rest)
    case NoDot(major, n, rest) =>
      Denotes(major, n, 10) && n <= SIZE_MAX && !StartsWithDigit(rest, 10) && (rest != [] ==> rest[0] != '.')
    case NoMinor(major, n, rest) => Denotes(major, n, 10) && n <= SIZE_MAX && NoNumber(rest)
    case NoCode(major, n, minor, m, rest) =>
      Denotes(major, n, 10) && n <= SIZE_MAX && Denotes(minor, m, 10) && m <= SIZE_MAX && NoNumber(rest)
  }

  lemma ScanFindsNothing(s: string)
    requires NoNumber(s)
    ensures ScanUnsigned(s).used == 0
  {
    ReadNothing("", NoSign, s, 10);
    assert "" + (SignText(NoSign) + s) == s;
  }

  lemma MajorIsRead(major: string, n: nat, rest: string)
    requires Denotes(major, n, 10) && n <= SIZE_MAX && !StartsWithDigit(rest, 10)
    ensures ScanFromMajor(major + rest) == ScanFromDot(Low32(n), rest)
  {
    ReadBackDigits(major, n, 10, rest);
    assert (major + rest)[|major|..] == rest;
  }

  lemma MinorIsRead(major: nat, minor: string, m: nat, rest: string)
    requires Denotes(minor, m, 10) && m <= SIZE_MAX && !StartsWithDigit(rest, 10)
    ensures ScanFromMinor(major, minor + rest) == ScanFromStatus(major, Low32(m), rest)
  {
    ReadBackDigits(minor, m, 10, rest);
    assert (minor + rest)[|minor|..] == rest;
  }

  /** A line without the three numbers is no status line. */
  lemma FlawsAreFound(f: Flaw)
    requires IsFlaw(f)
    ensures ScanStatusLine(FlawedLine(f)).NoStatus?
  {
    var s := FlawedLine(f);
    match f
    case NoHttp(line) =>
    case NoMajor(rest) =>
      assert s[5..] == rest;
      ScanFindsNothing(rest);
    case NoDot(major, n, rest) =>
      assert s[5..] == major + rest;
      MajorIsRead(major, n, rest);
    case NoMinor(major, n, rest) =>
      assert s[5..] == major + ("." + rest) && ("." + rest)[1..] == rest;
      NoDigitHere('.', rest);
      MajorIsRead(major, n, "." + rest);
      ScanFindsNothing(rest);
    case NoCode(major, n, minor, m, rest) =>
      assert s[5..] == major + ("." + (minor + rest)) && ("." + (minor + rest))[1..] == minor + rest;
      NoDigitHere('.', minor + rest);
      MajorIsRead(major, n, "." + (minor + rest));
      MinorIsRead(Low32(n), minor, m, rest);
      ScanFindsNothing(rest);
  }
}
