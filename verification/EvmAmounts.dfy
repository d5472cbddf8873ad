/** Reading amounts and addresses out of the hex strings of EVM transactions and ERC-20 transfer logs. */
module EvmAmounts {
  import opened Common

  const WEI_PER_ETHER: real := 1000000000000000000.0

  function DigitValue(c: char): Option<nat> {
    if '0' <= c <= '9' then Some(c as nat - '0' as nat)
    else if 'a' <= c <= 'f' then Some(c as nat - 'a' as nat + 10)
    else if 'A' <= c <= 'F' then Some(c as nat - 'A' as nat + 10)
    else None
  }

  /** An unsigned number in base 16; at least one digit and nothing else. */
  function ParseDigits(s: string): Option<nat> {
    if s == "" then None
    else
      match DigitValue(s[|s| - 1])
      case None => None
      case Some(d) =>
        if |s| == 1 then Some(d)
        else match ParseDigits(s[..|s| - 1]) case None => None case Some(high) => Some(16 * high + d)
  }

  /** big.Int SetString in base 16: an optional sign, then digits; no prefix. */
  function ParseHex(s: string): Option<int> {
    if s != "" && (s[0] == '-' || s[0] == '+') then
      match ParseDigits(s[1..])
      case None => None
      case Some(n) => var m: int := if s[0] == '-' then 0 - n else n; Some(m)
    else
      match ParseDigits(s) case None => None case Some(n) => var m: int := n; Some(m)
  }

  /** parseTransactionAmount; None stands for its error. */
  function ParseTransactionAmount(hexValue: string): Option<real> {
    if hexValue == "" || hexValue == "0x0" then Some(0.0)
    else
      var digits := if |hexValue| > 2 && hexValue[..2] == "0x" then hexValue[2..] else hexValue;
      match ParseHex(digits) case None => None case Some(n) => Some(n as real / WEI_PER_ETHER)
  }

  // ---------------------------------------------------------------- round trip

  function Digit(d: nat): char
    requires d < 16
  {
    "0123456789abcdef"[d]
  }

  /** The shortest base-16 form, as nodes print quantities. */
  function ToHex(n: nat): string {
    if n < 16 then [Digit(n)] else ToHex(n / 16) + [Digit(n % 16)]
  }

  function Zeros(k: nat): string {
    if k == 0 then "" else Zeros(k - 1) + "0"
  }

  lemma DigitIsRead(d: nat)
    requires d < 16
    ensures DigitValue(Digit(d)) == Some(d) && Digit(d) != '-' && Digit(d) != '+'
  {
  }

  lemma OneMoreDigit(s: string, high: nat, d: nat)
    requires d < 16 && s != "" && ParseDigits(s) == Some(high)
    ensures ParseDigits(s + [Digit(d)]) == Some(16 * high + d)
  {
    DigitIsRead(d);
    assert (s + [Digit(d)])[..|s|] == s;
  }

  lemma {:induction false} DigitsRoundTrip(n: nat)
    ensures ToHex(n) != "" && ToHex(n)[0] != '-' && ToHex(n)[0] != '+'
    ensures ParseDigits(ToHex(n)) == Some(n)
  {
    if n < 16 {
      DigitIsRead(n);
    } else {
      DigitsRoundTrip(n / 16);
      OneMoreDigit(ToHex(n / 16), n / 16, n % 16);
    }
  }

  lemma {:induction false} ZerosAreZero(k: nat)
    requires k > 0
    ensures |Zeros(k)| == k && Zeros(k)[0] == '0'
    ensures ParseDigits(Zeros(k)) == Some(0)
  {
    if k > 1 {
      ZerosAreZero(k - 1);
      assert Zeros(k)[..k - 1] == Zeros(k - 1);
    }
  }

  lemma {:induction false} LeadingZeros(k: nat, s: string)
    requires k > 0 && ParseDigits(s).Some?
    ensures ParseDigits(Zeros(k) + s) == ParseDigits(s)
  {
    ZerosAreZero(k);
    var n := |s|;
    if n == 1 {
      assert (Zeros(k) + s)[..k] == Zeros(k);
    } else {
      LeadingZeros(k, s[..n - 1]);
      assert (Zeros(k) + s)[..k + n - 1] == Zeros(k) + s[..n - 1];
    }
  }

  lemma UnsignedHex(digits: string, n: nat)
    requires digits != "" && digits[0] != '-' && digits[0] != '+'
    requires ParseDigits(digits) == Some(n)
    ensures ParseHex(digits) == Some(n)
  {
  }

  lemma PrefixedHex(digits: string, n: int)
    requires digits != "" && digits != "0" && ParseHex(digits) == Some(n)
    ensures ParseTransactionAmount("0x" + digits) == Some(n as real / WEI_PER_ETHER)
  {
    var s := "0x" + digits;
    assert |s| > 2 && s[..2] == "0x" && s[2..] == digits;
    assert s[2] == digits[0];
    assert s != "0x0" by {
      assert |digits| == 1 ==> digits == [digits[0]];
    }
  }

  lemma {:induction false} PaddedDigits(n: nat, k: nat)
    ensures var digits := Zeros(k) + ToHex(n);
            digits != "" && digits[0] != '-' && digits[0] != '+' && ParseDigits(digits) == Some(n)
  {
    DigitsRoundTrip(n);
    if k > 0 {
      ZerosAreZero(k);
      LeadingZeros(k, ToHex(n));
    } else {
      assert Zeros(k) + ToHex(n) == ToHex(n);
    }
  }

  /** Every amount a node can print, bare or padded with zeros to a log word, is read back exactly. */
  lemma AmountRoundTrip(n: nat, k: nat)
    ensures ParseTransactionAmount("0x" + (Zeros(k) + ToHex(n))) == Some(n as real / 1000000000000000000.0)
  {
    var digits := Zeros(k) + ToHex(n);
    PaddedDigits(n, k);
    UnsignedHex(digits, n);
    if digits == "0" {
      assert ParseDigits("0") == Some(0);
      assert "0x" + digits == "0x0";
    } else {
      PrefixedHex(digits, n);
    }
  }

  // ---------------------------------------------------------------- what can be read

  predicate HexDigit(c: char) {
    c in "0123456789abcdefABCDEF"
  }

  predicate HexDigits(s: string) {
    s != "" && forall i :: 0 <= i < |s| ==> HexDigit(s[i])
  }

  /** Digits in base 16, after an optional sign. */
  predicate HexNumber(s: string) {
    HexDigits(s) || (s != "" && (s[0] == '-' || s[0] == '+') && HexDigits(s[1..]))
  }

  lemma DigitIff(c: char)
    ensures DigitValue(c).Some? <==> HexDigit(c)
  {
    var digits := "0123456789abcdefABCDEF";
    assert digits[0] == '0' && digits[1] == '1' && digits[2] == '2' && digits[3] == '3' && digits[4] == '4';
    assert digits[5] == '5' && digits[6] == '6' && digits[7] == '7' && digits[8] == '8' && digits[9] == '9';
    assert digits[10] == 'a' && digits[11] == 'b' && digits[12] == 'c' && digits[13] == 'd' && digits[14] == 'e';
    assert digits[15] == 'f' && digits[16] == 'A' && digits[17] == 'B' && digits[18] == 'C' && digits[19] == 'D';
    assert digits[20] == 'E' && digits[21] == 'F';
  }

  lemma LastDigit(s: string)
    requires |s| > 1
    ensures HexDigits(s) <==> HexDigits(s[..|s| - 1]) && HexDigit(s[|s| - 1])
  {
  }

  lemma {:induction false} DigitsIff(s: string)
    ensures ParseDigits(s).Some? <==> HexDigits(s)
  {
    if s != "" {
      DigitIff(s[|s| - 1]);
      if |s| > 1 {
        LastDigit(s);
        DigitsIff(s[..|s| - 1]);
      }
    }
  }

  /** An amount can be read if and only if it is empty or a base-16 number, with or without the prefix 0x. */
  lemma ReadableIff(v: string)
    ensures ParseTransactionAmount(v).Some? <==> v == "" || HexNumber(if |v| > 2 && v[..2] == "0x" then v[2..] else v)
  {
    var digits := if |v| > 2 && v[..2] == "0x" then v[2..] else v;
    DigitsIff(digits);
    if digits != "" && (digits[0] == '-' || digits[0] == '+') {
      DigitsIff(digits[1..]);
      SignIsNoDigit(digits);
    }
    if v == "0x0" {
      assert digits == "0";
    }
  }

  lemma SignIsNoDigit(s: string)
    requires s != "" && (s[0] == '-' || s[0] == '+')
    ensures !HexDigits(s)
  {
    DigitIff(s[0]);
  }

  /** Digits may have a sign, which counts. */
  lemma SignedHex(sign: string, digits: string)
    requires (sign == "-" || sign == "+") && digits != ""
    ensures ParseTransactionAmount("0x" + sign + digits) ==
            match ParseDigits(digits)
            case None => None
            case Some(n) => Some((if sign == "-" then 0 - n else n) as real / 1000000000000000000.0)
  {
    var v := "0x" + sign + digits;
    assert v[2..] == sign + digits && (sign + digits)[1..] == digits;
  }

  /** Large letters count as small ones. */
  lemma {:induction false} CaseOfDigitsIsIgnored(s: string)
    ensures ParseDigits(s) == ParseDigits(Lower(s))
  {
    if |s| > 1 {
      CaseOfDigitsIsIgnored(s[..|s| - 1]);
      assert Lower(s)[..|s| - 1] == Lower(s[..|s| - 1]);
    }
  }

  // ---------------------------------------------------------------- transfer logs

  /** A log entry: not an object, or the fields read from it ("" and None when missing or not a string). */
  datatype RawLog = NotALog | Log(transactionHash: string, topics: seq<Option<string>>, data: string)

  datatype Transfer = Transfer(hash: string, to: string, value: string)

  function TopicAddress(topics: seq<Option<string>>, i: nat): string {
    if |topics| >= 3 && i < |topics| && topics[i].Some? && |topics[i].value| >= 66 then "0x" + topics[i].value[26..] else ""
  }

  /** parseTokenTransferLog, as far as the detector uses its result. */
  function ParseTokenTransferLog(log: RawLog): Option<Transfer> {
    match log
    case NotALog => None
    case Log(hash, topics, data) => Some(Transfer(hash, TopicAddress(topics, 2), if |data| > 2 then data else ""))
  }

  /** A 20-byte address padded to a 32-byte topic comes back as the address, and any amount as its value. */
  lemma TransferLogRoundTrip(hash: string, signature: string, from: string, to: string, amount: nat, k: nat)
    requires |from| == 40 && |to| == 40
    ensures var topics := [Some(signature), Some("0x" + Zeros(24) + from), Some("0x" + Zeros(24) + to)];
            var t := ParseTokenTransferLog(Log(hash, topics, "0x" + (Zeros(k) + ToHex(amount))));
            && t.Some? && t.value.hash == hash && t.value.to == "0x" + to
            && ParseTransactionAmount(t.value.value) == Some(amount as real / 1000000000000000000.0)
  {
    ZerosAreZero(24);
    var topic := "0x" + Zeros(24) + to;
    assert topic[26..] == to;
    DigitsRoundTrip(amount);
    AmountRoundTrip(amount, k);
  }
}
