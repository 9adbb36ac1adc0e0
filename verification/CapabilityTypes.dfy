/** Amounts, limits and liveness: the pure rules a capability is checked by. */
module CapabilityTypes {
  import opened Common

  datatype Status = ACTIVE | EXPIRED | REVOKED | SUSPENDED

  datatype Denial =
    NOT_FOUND | CAPABILITY_EXPIRED | AMOUNT_EXCEEDED | FREQUENCY_EXCEEDED | TARGET_NOT_ALLOWED | ASSURANCE_EXPIRED

  datatype Lease = Lease(status: Status, expiresAt: int)

  /** The bounds a capability carries. Amounts are base-unit strings. */
  datatype Limits = Limits(amountLimit: Option<string>, frequencyLimit: Option<int>,
                           frequencyWindowSeconds: Option<int>, allowedTargets: seq<string>, expiresAt: Option<int>)

  predicate IsDigit(c: char) { '0' <= c <= '9' }

  function DigitValue(c: char): nat
    requires IsDigit(c)
  {
    c as int - '0' as int
  }

  predicate IsDecimal(s: string) {
    s != "" && forall c | c in s :: IsDigit(c)
  }

  function DecimalValue(s: string): nat
    requires forall c | c in s :: IsDigit(c)
  {
    if s == "" then 0 else 10 * DecimalValue(s[..|s| - 1]) + DigitValue(s[|s| - 1])
  }

  /** The number a base-unit string denotes, or nothing when it is not a plain decimal. */
  function ParseAmount(value: Option<string>): Option<nat> {
    if value.None? || !IsDecimal(value.value) then None else Some(DecimalValue(value.value))
  }

  /** Shortest decimal spelling, as `BigInt.prototype.toString` prints it. */
  function DecimalText(n: nat): (s: string)
    ensures IsDecimal(s)
  {
    var digit := ('0' as int + n % 10) as char;
    if n < 10 then [digit] else DecimalText(n / 10) + [digit]
  }

  /** Reading back a printed amount returns the same number. */
  lemma {:induction false} ParseDecimalText(n: nat)
    ensures ParseAmount(Some(DecimalText(n))) == Some(n)
  {
    var s := DecimalText(n);
    if n >= 10 {
      ParseDecimalText(n / 10);
      assert s[..|s| - 1] == DecimalText(n / 10);
    } else {
      assert s == [('0' as int + n) as char] && s[..|s| - 1] == "";
      assert DecimalValue(s) == 10 * DecimalValue("") + DigitValue(s[0]);
    }
  }

  function AttenuateAmount(requested: Option<string>, ceiling: Option<string>): Option<string> {
    if ParseAmount(ceiling).None? then requested
    else if ParseAmount(requested).None? then ceiling
    else if ParseAmount(requested).value <= ParseAmount(ceiling).value then requested
    else ceiling
  }

  predicate WithinAmountLimit(requested: Option<string>, ceiling: Option<string>) {
    if ParseAmount(ceiling).None? then true
    else if ParseAmount(requested).None? then requested.None?
    else ParseAmount(requested).value <= ParseAmount(ceiling).value
  }

  /** Whatever is asked, in whatever spelling, the attenuated grant fits its ceiling. */
  lemma AttenuatedFits(requested: Option<string>, ceiling: Option<string>)
    ensures WithinAmountLimit(AttenuateAmount(requested, ceiling), ceiling)
    ensures AttenuateAmount(AttenuateAmount(requested, ceiling), ceiling) == AttenuateAmount(requested, ceiling)
    ensures WithinAmountLimit(requested, ceiling) && requested.Some? ==>
              AttenuateAmount(requested, ceiling) == requested
  {
  }

  function LowerChar(c: char): char {
    if 'A' <= c <= 'Z' then (c as int + 32) as char else c
  }

  function ToLower(s: string): (r: string)
    ensures |r| == |s|
  {
    seq(|s|, i requires 0 <= i < |s| => LowerChar(s[i]))
  }

  /** The same characters, but for the case of the letters A to Z. */
  predicate SameSpelling(s: string, t: string) {
    |s| == |t| && forall i | 0 <= i < |s| ::
      || s[i] == t[i] || ('A' <= s[i] <= 'Z' && t[i] as int == s[i] as int + 32)
      || ('A' <= t[i] <= 'Z' && s[i] as int == t[i] as int + 32)
  }

  /** Lower-casing forgets the case of the letters A to Z and nothing else. */
  lemma ToLowerExact(s: string, t: string)
    ensures ToLower(s) == ToLower(t) <==> SameSpelling(s, t)
    ensures ToLower(ToLower(s)) == ToLower(s) && SameSpelling(s, ToLower(s))
  {
    if ToLower(s) == ToLower(t) {
      forall i | 0 <= i < |s| ensures LowerChar(s[i]) == LowerChar(t[i]) {
        assert ToLower(s)[i] == ToLower(t)[i];
      }
    }
  }

  predicate TargetAllowed(target: Option<string>, allowed: seq<string>) {
    allowed == [] || (target.Some? && ToLower(target.value) in allowed)
  }

  predicate ExpiryAhead(expiresAt: Option<int>, now: int) {
    expiresAt.None? || expiresAt.value > now
  }

  predicate IsLeaseLive(lease: Option<Lease>, now: int) {
    lease.Some? && lease.value.status == ACTIVE && lease.value.expiresAt > now
  }
}
