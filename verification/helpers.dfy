/**
 * Utility functions of the backend: the earnings formula, the wallet-address check and
 * the referral-code format. The clock and the random bytes are parameters.
 */
module Helpers {
  import opened Common

  /** Milliseconds in an hour: 1000 * 60 * 60. */
  const MsPerHour: int := 1000 * 60 * 60

  /** Hours elapsed from startTime to now (JavaScript date subtraction gives milliseconds). */
  function ElapsedHours(startTime: int, now: int): real {
    (now - startTime) as real / MsPerHour as real
  }

  /** calculateMiningEarnings: elapsed hours times the hourly rate. */
  function CalculateMiningEarnings(startTime: int, now: int, rate: real): (e: real)
    ensures startTime <= now && 0.0 <= rate ==> 0.0 <= e
    ensures rate == 0.0 ==> e == 0.0
  {
    ElapsedHours(startTime, now) * rate
  }

  /** A session of zero length earns nothing. */
  lemma EarningsOfEmptySession(t: int, rate: real)
    ensures CalculateMiningEarnings(t, t, rate) == 0.0
  {
  }

  /** At a non-negative rate, later claims never earn less. */
  lemma EarningsMonotone(startTime: int, now1: int, now2: int, rate: real)
    requires now1 <= now2 && rate >= 0.0
    ensures CalculateMiningEarnings(startTime, now1, rate) <= CalculateMiningEarnings(startTime, now2, rate)
  {
    var h1, h2 := ElapsedHours(startTime, now1), ElapsedHours(startTime, now2);
    assert h1 <= h2;
    assert (h2 - h1) * rate >= 0.0;
  }

  /** Earnings are additive over consecutive intervals at one rate. */
  lemma EarningsSplit(startTime: int, mid: int, now: int, rate: real)
    ensures CalculateMiningEarnings(startTime, now, rate)
         == CalculateMiningEarnings(startTime, mid, rate) + CalculateMiningEarnings(mid, now, rate)
  {
    assert ElapsedHours(startTime, now) == ElapsedHours(startTime, mid) + ElapsedHours(mid, now);
  }

  /** A session of exactly n hours earns n times the rate. */
  lemma EarningsOfWholeHours(startTime: int, hours: nat, rate: real)
    ensures CalculateMiningEarnings(startTime, startTime + hours * MsPerHour, rate) == hours as real * rate
  {
    assert ElapsedHours(startTime, startTime + hours * MsPerHour) == hours as real;
  }

  /**
   * The value of `address && address.length >= 26 && address.length <= 62`: a falsy address
   * is returned itself, a truthy one gives the boolean of the length test.
   */
  datatype AddressCheck = FalsyAddress(address: Option<string>) | LengthTest(ok: bool)

  predicate IsTruthy(c: AddressCheck) {
    c.LengthTest? && c.ok
  }

  function ValidateWalletAddress(address: Option<string>): (r: AddressCheck)
    ensures IsTruthy(r) <==> address.Some? && 26 <= |address.value| <= 62
    ensures !Truthy(address) ==> r == FalsyAddress(address)
    ensures Truthy(address) ==> r.LengthTest?
  {
    if !Truthy(address) then FalsyAddress(address)
    else LengthTest(|address.value| >= 26 && |address.value| <= 62)
  }

  type Byte = b: int | 0 <= b < 256

  /** The digits of toString('hex').toUpperCase(). */
  const HexDigits: string := "0123456789ABCDEF"

  /** Upper-case hexadecimal, two digits per byte, high nibble first. */
  function HexUpper(bytes: seq<Byte>): (s: string)
    ensures |s| == 2 * |bytes|
  {
    if |bytes| == 0 then []
    else [HexDigits[bytes[0] / 16], HexDigits[bytes[0] % 16]] + HexUpper(bytes[1..])
  }

  /** Every character HexUpper writes is a hexadecimal digit. */
  lemma {:induction false} HexUpperDigits(bytes: seq<Byte>)
    ensures forall i :: 0 <= i < |HexUpper(bytes)| ==> HexUpper(bytes)[i] in HexDigits
  {
    if |bytes| > 0 {
      HexUpperDigits(bytes[1..]);
      var s := HexUpper(bytes);
      var rest := HexUpper(bytes[1..]);
      assert s == [HexDigits[bytes[0] / 16], HexDigits[bytes[0] % 16]] + rest;
      forall i | 2 <= i < |s| ensures s[i] in HexDigits {
        assert s[i] == rest[i - 2];
      }
    }
  }

  /** What generateReferralCode can return: eight upper-case hexadecimal digits. */
  predicate IsReferralCode(code: string) {
    |code| == 8 && forall i :: 0 <= i < 8 ==> code[i] in HexDigits
  }

  /** generateReferralCode, given the four bytes that randomBytes(4) produced. */
  function GenerateReferralCode(random: seq<Byte>): (code: string)
    requires |random| == 4
    ensures IsReferralCode(code)
  {
    HexUpperDigits(random);
    HexUpper(random)
  }

  function DigitValue(c: char): (d: Option<nat>)
    ensures d.Some? ==> d.value < 16 && HexDigits[d.value] == c
    ensures d.None? ==> c !in HexDigits
  {
    if '0' <= c <= '9' then Some(c as int - '0' as int)
    else if 'A' <= c <= 'F' then Some(c as int - 'A' as int + 10)
    else None
  }

  lemma DigitValueOfHexDigit(d: nat)
    requires d < 16
    ensures DigitValue(HexDigits[d]) == Some(d)
  {
    if d < 10 {
      assert HexDigits[d] as int == '0' as int + d;
    } else {
      assert HexDigits[d] as int == 'A' as int + d - 10;
    }
  }

  /** Reads upper-case hexadecimal back into bytes; None for an odd length or a non-digit. */
  function ParseHex(s: string): Option<seq<Byte>> {
    if |s| == 0 then Some([])
    else if |s| == 1 then None
    else
      var hi, lo, rest := DigitValue(s[0]), DigitValue(s[1]), ParseHex(s[2..]);
      if hi.None? || lo.None? || rest.None? then None
      else Some([hi.value * 16 + lo.value] + rest.value)
  }

  /** Two digits in front of a parsable rest parse to one more byte. */
  lemma ParseHexCons(s: string, hi: nat, lo: nat, rest: seq<Byte>)
    requires |s| >= 2 && hi < 16 && lo < 16
    requires DigitValue(s[0]) == Some(hi) && DigitValue(s[1]) == Some(lo) && ParseHex(s[2..]) == Some(rest)
    ensures ParseHex(s) == Some([hi * 16 + lo] + rest)
  {
  }

  /** The two digits HexUpper writes for a byte, high nibble first. */
  lemma HexUpperCons(bytes: seq<Byte>)
    requires |bytes| > 0
    ensures var s := HexUpper(bytes);
      && s[0] == HexDigits[bytes[0] / 16] && s[1] == HexDigits[bytes[0] % 16]
      && s[2..] == HexUpper(bytes[1..])
  {
    var hi, lo := bytes[0] / 16, bytes[0] % 16;
    var s := HexUpper(bytes);
    assert s == [HexDigits[hi], HexDigits[lo]] + HexUpper(bytes[1..]);
  }

  /** A byte is its high nibble times 16 plus its low nibble. */
  lemma Nibbles(b: Byte)
    ensures b / 16 < 16 && b % 16 < 16 && (b / 16) * 16 + b % 16 == b
  {
  }

  /** A referral code determines the bytes it was generated from. */
  lemma {:induction false} HexRoundTrip(bytes: seq<Byte>)
    ensures ParseHex(HexUpper(bytes)) == Some(bytes)
  {
    if |bytes| > 0 {
      var b := bytes[0];
      var hi, lo := b / 16, b % 16;
      var s := HexUpper(bytes);
      Nibbles(b);
      HexUpperCons(bytes);
      DigitValueOfHexDigit(hi);
      DigitValueOfHexDigit(lo);
      HexRoundTrip(bytes[1..]);
      assert ParseHex(s[2..]) == Some(bytes[1..]);
      ParseHexCons(s, hi, lo, bytes[1..]);
      assert [b] + bytes[1..] == bytes;
    }
  }

  /** Distinct random draws give distinct referral codes. */
  lemma ReferralCodeInjective(a: seq<Byte>, b: seq<Byte>)
    requires |a| == 4 && |b| == 4 && a != b
    ensures GenerateReferralCode(a) != GenerateReferralCode(b)
  {
    HexRoundTrip(a);
    HexRoundTrip(b);
  }
}
