/** Big integers as text: what `BigInt(text)` reads, what `toString` prints, and halving a stored ceiling. */
module BigIntText {
  import opened Common
  import opened CapabilityTypes

  /** White space and line ends of ECMAScript, which reading a number trims. */
  predicate IsSpace(c: char) {
    var n := c as int;
    || 0x9 <= n <= 0xD || n == 0x20 || n == 0xA0 || n == 0x1680 || 0x2000 <= n <= 0x200A
    || n == 0x2028 || n == 0x2029 || n == 0x202F || n == 0x205F || n == 0x3000 || n == 0xFEFF
  }

  function TrimStart(s: string): string { if s != "" && IsSpace(s[0]) then TrimStart(s[1..]) else s }

  function TrimEnd(s: string): string { if s != "" && IsSpace(s[|s| - 1]) then TrimEnd(s[..|s| - 1]) else s }

  function Trim(s: string): string { TrimEnd(TrimStart(s)) }

  function RadixDigit(c: char): nat {
    if '0' <= c <= '9' then c as int - '0' as int
    else if 'a' <= c <= 'f' then c as int - 'a' as int + 10
    else if 'A' <= c <= 'F' then c as int - 'A' as int + 10
    else 16
  }

  predicate IsRadix(s: string, base: nat) {
    s != "" && forall c | c in s :: RadixDigit(c) < base
  }

  function RadixValue(s: string, base: nat): nat {
    if s == "" then 0 else base * RadixValue(s[..|s| - 1], base) + RadixDigit(s[|s| - 1])
  }

  /** The base a two-character prefix announces. */
  function PrefixBase(s: string): Option<nat> {
    if |s| < 2 || s[0] != '0' then None
    else if s[1] == 'x' || s[1] == 'X' then Some(16)
    else if s[1] == 'o' || s[1] == 'O' then Some(8)
    else if s[1] == 'b' || s[1] == 'B' then Some(2)
    else None
  }

  function ReadDecimal(s: string): Option<int> { if IsDecimal(s) then Some(DecimalValue(s)) else None }

  /**
   * The number a text denotes, or nothing when reading it throws: surrounding space is dropped, an
   * empty text is zero, digits may carry a sign, and a base prefix excludes one.
   */
  function ReadBigInt(text: string): Option<int> {
    var s := Trim(text);
    if s == "" then Some(0)
    else if PrefixBase(s).Some? then
      var base := PrefixBase(s).value;
      if IsRadix(s[2..], base) then Some(RadixValue(s[2..], base)) else None
    else if s[0] == '-' then
      var n := ReadDecimal(s[1..]);
      if n.Some? then Some(-n.value) else None
    else
      ReadDecimal(if s[0] == '+' then s[1..] else s)
  }

  function PrintBigInt(n: int): string { if n < 0 then "-" + DecimalText(-n) else DecimalText(n) }

  lemma TrimKeeps(s: string)
    requires s != "" && !IsSpace(s[0]) && !IsSpace(s[|s| - 1])
    ensures Trim(s) == s
  {
  }

  /** No printed number looks as if it had a base prefix. */
  lemma DecimalNoPrefix(s: string)
    requires IsDecimal(s)
    ensures PrefixBase(s).None? && !IsSpace(s[0]) && !IsSpace(s[|s| - 1]) && s[0] != '-' && s[0] != '+'
  {
    assert s[0] in s && s[|s| - 1] in s;
    if |s| >= 2 { assert s[1] in s; }
  }

  /** Reading back a printed number returns it. */
  lemma PrintedReads(n: int)
    ensures ReadBigInt(PrintBigInt(n)) == Some(n)
  {
    hide DecimalText, DecimalValue, IsDecimal, IsSpace;
    var digits, s := DecimalText(if n < 0 then -n else n), PrintBigInt(n);
    ParseDecimalText(if n < 0 then -n else n);
    NonEmpty(digits);
    DecimalNoPrefix(digits);
    if n < 0 {
      assert s[0] == '-' && s[1..] == digits && s[|s| - 1] == digits[|digits| - 1];
      MinusNoSpace();
    }
    TrimKeeps(s);
  }

  lemma NonEmpty(s: string)
    requires IsDecimal(s)
    ensures s != ""
  {
  }

  lemma MinusNoSpace()
    ensures !IsSpace('-')
  {
  }

  // ---- what reads as which number ----

  const DIGITS: string := "0123456789abcdef"
  const CAPITALS: string := "0123456789ABCDEF"

  /** The character is the digit `v`, in either case. */
  predicate IsDigitOf(c: char, v: nat) { v < 16 && (c == DIGITS[v] || c == CAPITALS[v]) }

  /** The base a letter announces after a leading zero: hexadecimal, octal or binary, in either case. */
  function BaseOf(mark: char): Option<nat> {
    if mark in "xX" then Some(16) else if mark in "oO" then Some(8) else if mark in "bB" then Some(2) else None
  }

  lemma RadixDigitExact(c: char, v: nat)
    ensures v < 16 ==> (RadixDigit(c) == v <==> IsDigitOf(c, v))
  {
  }

  /** Space before or after a text makes no difference to the number, and a blank text is zero. */
  lemma ReadsTrimmed(c: char, s: string)
    requires c as int in {9, 10, 11, 12, 13, 32, 160, 0x1680, 0x2000, 0x2001, 0x2002, 0x2003, 0x2004, 0x2005, 0x2006,
                          0x2007, 0x2008, 0x2009, 0x200A, 0x2028, 0x2029, 0x202F, 0x205F, 0x3000, 0xFEFF}
    ensures ReadBigInt([c] + s) == ReadBigInt(s) == ReadBigInt(s + [c]) && ReadBigInt("") == Some(0)
  {
    assert IsSpace(c);
    assert ([c] + s)[1..] == s;
    TrimStartAppend(s, c);
    hide IsSpace;
    if TrimStart(s) != "" { assert (TrimStart(s) + [c])[..|TrimStart(s)|] == TrimStart(s); }
  }

  lemma {:induction false} TrimStartAppend(s: string, c: char)
    requires IsSpace(c)
    ensures TrimStart(s + [c]) == if TrimStart(s) == "" then "" else TrimStart(s) + [c]
  {
    hide IsSpace;
    if s == "" {
      assert s + [c] == [c] && [c][1..] == "";
    } else if IsSpace(s[0]) {
      assert (s + [c])[1..] == s[1..] + [c];
      TrimStartAppend(s[1..], c);
    }
  }

  /** Decimal digits read as what they are in base ten, and may carry either sign. */
  lemma ReadsDecimal(digits: string)
    requires IsDecimal(digits)
    ensures ReadBigInt(digits) == ReadBigInt("+" + digits) == Some(DecimalValue(digits))
    ensures ReadBigInt("-" + digits).Some? && ReadBigInt("-" + digits).value + DecimalValue(digits) == 0
  {
    hide DecimalValue, IsDecimal;
    NonEmpty(digits);
    DecimalNoPrefix(digits);
    TrimKeeps(digits);
    SignsNoSpace();
    TrimKeeps("+" + digits);
    TrimKeeps("-" + digits);
    assert ("+" + digits)[1..] == digits == ("-" + digits)[1..];
  }

  lemma SignsNoSpace()
    ensures !IsSpace('+') && !IsSpace('-') && !IsSpace('0')
  {
  }

  lemma DigitNoSpace(c: char)
    requires RadixDigit(c) < 16
    ensures !IsSpace(c)
  {
  }

  /** After a base prefix, digits of that base read as what they are in it, digit by digit; a sign does not belong. */
  lemma ReadsPrefixed(mark: char, digits: string, c: char, v: nat)
    requires BaseOf(mark).Some? && v < BaseOf(mark).value && IsDigitOf(c, v)
    ensures ReadBigInt("0" + [mark] + [c]) == Some(v)
    ensures digits != "" && ReadBigInt("0" + [mark] + digits).Some? && !IsSpace(digits[|digits| - 1]) ==>
      ReadBigInt("0" + [mark] + digits + [c]) == Some(BaseOf(mark).value * ReadBigInt("0" + [mark] + digits).value + v)
  {
    hide IsSpace, ReadBigInt, RadixValue, IsRadix, IsDigitOf;
    RadixDigitExact(c, v);
    DigitNoSpace(c);
    PrefixedRead(mark, [c]);
    OneDigit(c, BaseOf(mark).value);
    if digits != "" && !IsSpace(digits[|digits| - 1]) {
      PrefixedRead(mark, digits);
      PrefixedRead(mark, digits + [c]);
      assert "0" + [mark] + digits + [c] == "0" + [mark] + (digits + [c]);
      DigitAppended(digits, c, BaseOf(mark).value);
    }
  }

  lemma OneDigit(c: char, base: nat)
    ensures IsRadix([c], base) <==> RadixDigit(c) < base
    ensures RadixValue([c], base) == RadixDigit(c)
  {
    assert c in [c] && [c][..0] == "";
    assert RadixValue([c], base) == base * RadixValue("", base) + RadixDigit(c);
  }

  lemma DigitAppended(digits: string, c: char, base: nat)
    requires digits != ""
    ensures IsRadix(digits + [c], base) <==> IsRadix(digits, base) && RadixDigit(c) < base
    ensures RadixValue(digits + [c], base) == base * RadixValue(digits, base) + RadixDigit(c)
  {
    assert (digits + [c])[..|digits|] == digits;
    assert forall d :: d in digits + [c] <==> d in digits || d == c;
  }

  lemma PrefixedRead(mark: char, digits: string)
    requires BaseOf(mark).Some? && digits != "" && !IsSpace(digits[|digits| - 1])
    ensures ReadBigInt("0" + [mark] + digits) ==
      if IsRadix(digits, BaseOf(mark).value) then Some(RadixValue(digits, BaseOf(mark).value)) else None
  {
    hide IsSpace, IsRadix, RadixValue;
    var s := "0" + [mark] + digits;
    SignsNoSpace();
    TrimKeeps(s);
    assert s[2..] == digits;
  }

  /** One character that is no digit of the base spoils the text, and so does having no digits at all. */
  lemma ReadsNothing(mark: char, digits: string, i: nat)
    requires BaseOf(mark).Some? && i < |digits| && !IsSpace(digits[|digits| - 1])
    requires forall v: nat | v < BaseOf(mark).value :: !IsDigitOf(digits[i], v)
    ensures ReadBigInt("0" + [mark] + digits).None? && ReadBigInt("0" + [mark]).None?
  {
    PrefixedRead(mark, digits);
    assert digits[i] in digits;
    RadixDigitExact(digits[i], RadixDigit(digits[i]));
    MarkNoSpace(mark);
    SignsNoSpace();
    TrimKeeps("0" + [mark]);
    assert ("0" + [mark])[2..] == "";
  }

  lemma MarkNoSpace(mark: char)
    requires BaseOf(mark).Some?
    ensures !IsSpace(mark)
  {
  }

  /** The quotient is the number of whole times the divisor goes into the amount, with the amount's sign. */
  lemma QuotientExact(x: int, d: int)
    requires d > 0
    ensures x >= 0 ==> d * Quotient(x, d) <= x < d * Quotient(x, d) + d
    ensures x <= 0 ==> d * Quotient(x, d) - d < x <= d * Quotient(x, d)
  {
  }

  /** Division of big integers truncates toward zero. */
  function Quotient(x: int, d: int): int
    requires d > 0
  {
    if x >= 0 then x / d else -((-x) / d)
  }

  /** How much an attenuation narrows a stored ceiling; text that is no number stays as it is. */
  function AttenuatedLimit(current: Option<string>, divisor: int): Option<string> {
    if current.None? || ReadBigInt(current.value).None? then current
    else Some(PrintBigInt(Quotient(ReadBigInt(current.value).value, Max(2, divisor))))
  }

  lemma QuotientShrinks(x: int, d: int)
    requires d >= 2
    ensures Quotient(x, d) == x <==> x == 0
    ensures x >= 0 ==> 0 <= Quotient(x, d) <= x
    ensures x <= 0 ==> x <= Quotient(x, d) <= 0
  {
    QuotientOf(if x >= 0 then x else -x, d);
  }

  lemma QuotientOf(x: nat, d: nat)
    requires d >= 2
    ensures 0 <= x / d <= x && (x / d == x <==> x == 0)
  {
    var q, r := x / d, x % d;
    assert x == d * q + r && 0 <= r;
    Doubled(d, q);
  }

  lemma Doubled(d: nat, q: nat)
    requires d >= 2
    ensures d * q >= 2 * q
  {
    assert d * q - 2 * q == (d - 2) * q;
  }

  /** The same ceiling, or one that reads as no more than the other and zero. */
  predicate NoWider(b: Option<string>, a: Option<string>) {
    || b == a
    || (a.Some? && b.Some? && ReadBigInt(a.value).Some? && ReadBigInt(b.value).Some?
        && ReadBigInt(b.value).value <= Max(ReadBigInt(a.value).value, 0))
  }

  /** An attenuation leaves a ceiling alone exactly when it is absent, no number, or spelt "0"; it never widens one. */
  lemma AttenuationExact(current: Option<string>, divisor: int)
    ensures AttenuatedLimit(current, divisor) == current <==>
      current.None? || ReadBigInt(current.value).None? || current.value == "0"
    ensures NoWider(AttenuatedLimit(current, divisor), current)
    ensures current.Some? && ReadBigInt(current.value).Some? ==>
      var narrowed := AttenuatedLimit(current, divisor);
      narrowed.Some? && ReadBigInt(narrowed.value) == Some(Quotient(ReadBigInt(current.value).value, Max(2, divisor)))
  {
    hide ReadBigInt, PrintBigInt, Quotient;
    if current.Some? && ReadBigInt(current.value).Some? {
      var v, d := ReadBigInt(current.value).value, Max(2, divisor);
      PrintedReads(Quotient(v, d));
      QuotientShrinks(v, d);
      PrintedReads(0);
      ZeroPrinted();
    }
  }

  lemma ZeroPrinted()
    ensures PrintBigInt(0) == "0"
  {
  }
}
