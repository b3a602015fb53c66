/** Normalisation of ciphertext handles before they go to the decryption service:
    a handle read back as a bigint becomes "0x" and its lower-case hexadecimal
    digits, left-padded with zeros to 64 digits (the 32-byte big-endian form);
    any other value is passed on as it is. */
module Handles {
  import opened Wrappers
  import opened Radix

  /** A handle as `getRecordConsumption` / `getRecordIsPeak` return it. */
  datatype RawHandle = BigInt(n: int) | Other(text: string)

  /** Hex digits in the 32-byte form. */
  const HANDLE_DIGITS: nat := 64

  /** 2^256, the bound of a 32-byte handle, written out. */
  const HANDLE_LIMIT: nat := 0x10000000000000000000000000000000000000000000000000000000000000000

  /** The written-out bound is 2^256. */
  lemma HandleLimitIsPow()
    ensures HANDLE_LIMIT == Pow(2, 256)
  {
    assert Pow(2, 8) == 0x100;
    PowSquare(8, 0x100);
    PowSquare(16, 0x1_0000);
    PowSquare(32, 0x1_0000_0000);
    PowSquare(64, 0x1_0000_0000_0000_0000);
    PowSquare(128, 0x1_0000_0000_0000_0000_0000_0000_0000_0000);
  }

  /** The encoded handle: `"0x" + n.toString(16).padStart(64, "0")` for a bigint. */
  function Encode(h: RawHandle): (r: string)
    ensures h.Other? ==> r == h.text
    ensures h.BigInt? ==> |r| >= 2 + HANDLE_DIGITS && r[..2] == "0x"
  {
    match h
    case BigInt(n) => "0x" + PadStart(ToRadixString(n, 16), HANDLE_DIGITS, '0')
    case Other(s) => s
  }

  /** Reads an encoded handle back: "0x" followed by at least one lower-case hex digit. */
  function Decode(s: string): (r: Option<nat>)
    ensures r.Some? ==> |s| > 2 && s[..2] == "0x" && AllDigits(s[2..], 16)
  {
    if |s| > 2 && s[..2] == "0x" && AllDigits(s[2..], 16) then Some(Value(s[2..], 16)) else None
  }

  /** A handle below 2^256 encodes to "0x" and exactly 64 lower-case hex digits:
      zeros, then the digits of the handle. */
  lemma EncodeWidth(n: nat)
    requires n < HANDLE_LIMIT
    ensures |Digits(n, 16)| <= HANDLE_DIGITS
    ensures var r := Encode(BigInt(n));
            |r| == 2 + HANDLE_DIGITS && r[..2] == "0x" && AllDigits(r[2..], 16)
            && r[2..] == Repeat('0', HANDLE_DIGITS - |Digits(n, 16)|) + Digits(n, 16)
  {
    HandleLimitIsPow();
    HexPowIsBinaryPow(HANDLE_DIGITS);
    DigitsLength(n, 16, HANDLE_DIGITS);
    PaddedDigits(n);
  }

  /** The padding step on its own: a handle with at most 64 hex digits fills exactly 64. */
  lemma PaddedDigits(n: nat)
    requires |Digits(n, 16)| <= HANDLE_DIGITS
    ensures var r := Encode(BigInt(n));
            |r| == 2 + HANDLE_DIGITS && r[..2] == "0x" && AllDigits(r[2..], 16)
            && r[2..] == Repeat('0', HANDLE_DIGITS - |Digits(n, 16)|) + Digits(n, 16)
  {
    var d := Digits(n, 16);
    var p := Repeat('0', HANDLE_DIGITS - |d|) + d;
    assert PadStart(d, HANDLE_DIGITS, '0') == p;
    ValueIgnoresLeadingZeros(HANDLE_DIGITS - |d|, d, 16);
    var r := Encode(BigInt(n));
    assert r == "0x" + p;
    assert r[2..] == p;
  }

  /** The encoding is 64 digits wide exactly for the handles below 2^256; a wider
      bigint keeps all its digits. */
  lemma EncodeWidthExact(n: nat)
    ensures |Encode(BigInt(n))| == 2 + HANDLE_DIGITS <==> n < HANDLE_LIMIT
  {
    HandleLimitIsPow();
    HexPowIsBinaryPow(64);
    DigitsLength(n, 16, HANDLE_DIGITS);
  }

  /** Round trip: reading the digits back gives the handle, for every
      non-negative bigint. */
  lemma DecodeEncode(n: nat)
    ensures Decode(Encode(BigInt(n))) == Some(n)
  {
    var d := Digits(n, 16);
    var z := if |d| < HANDLE_DIGITS then HANDLE_DIGITS - |d| else 0;
    var p := Repeat('0', z) + d;
    assert PadStart(d, HANDLE_DIGITS, '0') == p;
    var r := Encode(BigInt(n));
    assert r == "0x" + p;
    assert r[2..] == p;
    ValueIgnoresLeadingZeros(z, d, 16);
    ValueOfDigits(n, 16);
  }

  /** A concrete handle, 123n: it is sent as "0x", 62 zeros and "7b", and reads back as 123. */
  lemma EncodeSmallHandle()
    ensures Encode(BigInt(123)) == "0x" + Repeat('0', 62) + "7b"
    ensures Decode(Encode(BigInt(123))) == Some(123)
  {
    EncodeWidth(123);
    DecodeEncode(123);
    assert Digits(123, 16) == "7b";
  }

  /** Two different bigint handles never share an encoding, so the encoded string
      is a sound key for the decryption result map. */
  lemma EncodeInjective(a: nat, b: nat)
    ensures Encode(BigInt(a)) == Encode(BigInt(b)) ==> a == b
  {
    DecodeEncode(a);
    DecodeEncode(b);
  }

  /** A negative bigint is not a handle the contract can return (handles are
      uint256); its encoding carries a minus sign and does not read back. */
  lemma NegativeDoesNotDecode(n: int)
    requires n < 0
    ensures Decode(Encode(BigInt(n))).None?
  {
    var r := Encode(BigInt(n));
    var t := ToRadixString(n, 16);
    var p := PadStart(t, HANDLE_DIGITS, '0');
    assert r[2..] == p;
    assert p[|p| - |t|] == '-';
    assert !IsDigit(r[2..][|p| - |t|], 16);
  }
}
