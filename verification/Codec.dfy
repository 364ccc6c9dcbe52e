/** Numbers as byte strings and as hexadecimal text. */
module Codec {
  import opened Wrappers
  import M = Modular

  const TWO_TO_THE_256: int := 0x1_0000000000000000_0000000000000000_0000000000000000_0000000000000000

  type Byte = b: int | 0 <= b < 256

  // ----------------------------------------------------------------------------------------------
  // Digits in a base: big-endian, without leading zeros
  // ----------------------------------------------------------------------------------------------

  function FromDigits(base: nat, s: seq<nat>): nat {
    if |s| == 0 then 0 else FromDigits(base, s[..|s| - 1]) * base + s[|s| - 1]
  }

  lemma Division(base: nat, n: nat)
    requires base > 1 && n > 0
    ensures 0 <= n / base < n && 0 <= n % base < base && n == (n / base) * base + n % base
  {
    QuotientSmaller(base, n, n / base, n % base);
  }

  lemma QuotientSmaller(base: int, n: int, d: int, m: int)
    requires base > 1 && n > 0 && n == base * d + m && 0 <= m < base
    ensures 0 <= d < n && base * d == d * base
  {
    assert d <= -1 ==> base * d <= -base;
    assert d >= n ==> base * d >= 2 * d;
  }

  function ToDigits(base: nat, n: nat): (s: seq<nat>)
    requires base > 1
    ensures forall i :: 0 <= i < |s| ==> s[i] < base
  {
    if n == 0 then []
    else
      Division(base, n);
      ToDigits(base, n / base) + [n % base]
  }

  function Pow(base: nat, k: nat): nat {
    if k == 0 then 1 else Pow(base, k - 1) * base
  }

  function Zeros(k: nat): (s: seq<nat>)
    ensures |s| == k && forall i :: 0 <= i < k ==> s[i] == 0
  {
    seq(k, _ => 0)
  }

  lemma {:induction false} DigitsRoundTrip(base: nat, n: nat)
    requires base > 1
    ensures FromDigits(base, ToDigits(base, n)) == n
  {
    if n > 0 {
      Division(base, n);
      DigitsRoundTrip(base, n / base);
      assert ToDigits(base, n)[..|ToDigits(base, n)| - 1] == ToDigits(base, n / base);
    }
  }

  lemma {:induction false} ZerosVanish(base: nat, k: nat, s: seq<nat>)
    ensures FromDigits(base, Zeros(k) + s) == FromDigits(base, s)
  {
    if |s| > 0 {
      ZerosVanish(base, k, s[..|s| - 1]);
      assert (Zeros(k) + s)[..k + |s| - 1] == Zeros(k) + s[..|s| - 1];
    } else if k > 0 {
      ZerosVanish(base, k - 1, s);
      assert (Zeros(k) + s)[..k - 1] == Zeros(k - 1) + s;
    }
  }

  lemma ScaleUp(a: nat, b: nat, base: nat)
    requires a <= b
    ensures a * base <= b * base
  {
    assert (b - a) * base >= 0;
    assert (b - a) * base == b * base - a * base;
  }

  lemma BelowProduct(base: nat, n: nat, p: nat)
    requires base > 1 && n > 0
    ensures n < p * base <==> n / base < p
  {
    Division(base, n);
    if n / base < p {
      ScaleUp(n / base + 1, p, base);
      assert (n / base + 1) * base == n / base * base + base;
    } else {
      ScaleUp(p, n / base, base);
    }
  }

  /** A number has at most k digits exactly if it is below the k-th power of the base. */
  lemma {:induction false} DigitCount(base: nat, n: nat, k: nat)
    requires base > 1
    ensures |ToDigits(base, n)| <= k <==> n < Pow(base, k)
  {
    if n > 0 && k > 0 {
      Division(base, n);
      DigitCount(base, n / base, k - 1);
      BelowProduct(base, n, Pow(base, k - 1));
    } else if n == 0 {
      PowPositive(base, k);
    }
  }

  lemma {:induction false} PowPositive(base: nat, k: nat)
    requires base > 0
    ensures Pow(base, k) > 0
  {
    if k > 0 {
      PowPositive(base, k - 1);
    }
  }

  lemma {:induction false} PowAdd(base: nat, a: nat, b: nat)
    ensures Pow(base, a + b) == Pow(base, a) * Pow(base, b)
  {
    if b > 0 {
      PowAdd(base, a, b - 1);
      assert Pow(base, a) * Pow(base, b - 1) * base == Pow(base, a) * (Pow(base, b - 1) * base);
    }
  }

  /** The digit at position k counts for its value times a power of the base, the last one for itself. */
  ghost function DigitTerm(base: nat, s: seq<nat>): nat -> int {
    (k: nat) => if k < |s| then s[k] * Pow(base, |s| - 1 - k) else 0
  }

  /** Big-endian: the value of a digit string is the sum of its digits' values by position. */
  lemma {:induction false} BigEndian(base: nat, s: seq<nat>)
    ensures FromDigits(base, s) == M.SumTo(|s|, DigitTerm(base, s))
  {
    if |s| > 0 {
      var n, front := |s| - 1, s[..|s| - 1];
      hide FromDigits, M.SumTo, Pow;
      BigEndian(base, front);
      LastDigit(base, s);
      var shifted := (k: nat) => base * DigitTerm(base, front)(k);
      M.SumScale(n, base, DigitTerm(base, front), shifted);
      forall k | 0 <= k < n
        ensures DigitTerm(base, s)(k) == shifted(k)
      {
        NextPower(base, n - k);
        Regroup(s[k], Pow(base, n - 1 - k), base);
      }
      M.SumExt(n, DigitTerm(base, s), shifted);
      LastTerm(base, s);
    }
  }

  lemma LastDigit(base: nat, s: seq<nat>)
    requires |s| > 0
    ensures FromDigits(base, s) == FromDigits(base, s[..|s| - 1]) * base + s[|s| - 1]
  {
  }

  lemma NextPower(base: nat, k: nat)
    requires k > 0
    ensures Pow(base, k) == Pow(base, k - 1) * base
  {
  }

  lemma LastTerm(base: nat, s: seq<nat>)
    requires |s| > 0
    ensures M.SumTo(|s|, DigitTerm(base, s)) == M.SumTo(|s| - 1, DigitTerm(base, s)) + s[|s| - 1]
  {
    assert Pow(base, 0) == 1;
  }

  lemma Regroup(d: nat, w: nat, base: nat)
    ensures d * (w * base) == base * (d * w)
  {
    assert d * (w * base) == (d * w) * base;
  }

  lemma Pow256()
    ensures Pow(256, 32) == TWO_TO_THE_256 && Pow(16, 64) == TWO_TO_THE_256 && Pow(16, 2) == 256
  {
    assert Pow(16, 2) == 256 && Pow(256, 1) == 256 by {
      assert Pow(16, 1) == 16 && Pow(256, 0) == 1;
    }
    PowAdd(256, 1, 1);
    PowAdd(256, 2, 2);
    PowAdd(256, 4, 4);
    PowAdd(256, 8, 8);
    PowAdd(256, 16, 16);
    PowAdd(16, 2, 2);
    PowAdd(16, 4, 4);
    PowAdd(16, 8, 8);
    PowAdd(16, 16, 16);
    PowAdd(16, 32, 32);
  }

  // ----------------------------------------------------------------------------------------------
  // Bytes
  // ----------------------------------------------------------------------------------------------

  function ToBytes(n: nat): seq<Byte> {
    ToDigits(256, n)
  }

  function FromBytes(s: seq<Byte>): nat {
    FromDigits(256, s)
  }

  /** Zeros in front up to the given length; longer strings have no such form. */
  function LeftPad(s: seq<Byte>, size: nat): Option<seq<Byte>> {
    if |s| > size then None else Some(Zeros(size - |s|) + s)
  }

  function Bytes32(n: nat): Option<seq<Byte>> {
    LeftPad(ToBytes(n), 32)
  }

  /** Padding keeps the number, whatever bytes are padded. */
  lemma PaddingKeepsValue(s: seq<Byte>, size: nat)
    ensures LeftPad(s, size).Some? <==> |s| <= size
    ensures LeftPad(s, size).Some? ==> |LeftPad(s, size).value| == size && FromBytes(LeftPad(s, size).value) == FromBytes(s)
  {
    if |s| <= size {
      ZerosVanish(256, size - |s|, s);
    }
  }

  lemma BytesRoundTrip(n: nat)
    ensures FromBytes(ToBytes(n)) == n
  {
    DigitsRoundTrip(256, n);
  }

  /** A number fits 32 bytes exactly if it is below 2^256, and then the 32 bytes decode to it. */
  lemma Bytes32RoundTrip(n: nat)
    ensures Bytes32(n).Some? <==> n < TWO_TO_THE_256
    ensures Bytes32(n).Some? ==> |Bytes32(n).value| == 32 && FromBytes(Bytes32(n).value) == n
  {
    DigitCount(256, n, 32);
    Pow256();
    PaddingKeepsValue(ToBytes(n), 32);
    BytesRoundTrip(n);
  }

  /** The 64 bytes of a signature in compact form. */
  function Compact(r: nat, s: nat): Option<seq<Byte>> {
    if Bytes32(r).None? || Bytes32(s).None? then None else Some(Bytes32(r).value + Bytes32(s).value)
  }

  function ParseCompact(b: seq<Byte>): Option<(nat, nat)> {
    if |b| != 64 then None else Some((FromBytes(b[..32]), FromBytes(b[32..])))
  }

  lemma CompactRoundTrip(r: nat, s: nat)
    ensures Compact(r, s).Some? <==> r < TWO_TO_THE_256 && s < TWO_TO_THE_256
    ensures Compact(r, s).Some? ==> ParseCompact(Compact(r, s).value) == Some((r, s))
    ensures Compact(r, s).Some? ==>
      var b := Compact(r, s).value;
      |b| == 64 && FromDigits(256, b[..32]) == r && FromDigits(256, b[32..]) == s
  {
    Bytes32RoundTrip(r);
    Bytes32RoundTrip(s);
    if Compact(r, s).Some? {
      var b := Compact(r, s).value;
      assert b[..32] == Bytes32(r).value && b[32..] == Bytes32(s).value;
    }
  }

  // ----------------------------------------------------------------------------------------------
  // Hexadecimal text
  // ----------------------------------------------------------------------------------------------

  const HEX: string := "0123456789abcdef"

  predicate IsHex(c: char) {
    '0' <= c <= '9' || 'a' <= c <= 'f'
  }

  function HexChar(d: nat): (c: char)
    requires d < 16
    ensures IsHex(c)
  {
    HEX[d]
  }

  function HexValue(c: char): (d: nat)
    requires IsHex(c)
    ensures d < 16
  {
    if c <= '9' then (c - '0') as nat else (c - 'a') as nat + 10
  }

  lemma HexRoundTrip(d: nat)
    requires d < 16
    ensures HexValue(HexChar(d)) == d
  {
  }

  function HexText(ds: seq<nat>): (s: string)
    requires forall i :: 0 <= i < |ds| ==> ds[i] < 16
    ensures |s| == |ds| && forall i :: 0 <= i < |s| ==> s[i] == HexChar(ds[i])
  {
    seq(|ds|, i requires 0 <= i < |ds| => HexChar(ds[i]))
  }

  predicate AllHex(s: string) {
    forall i :: 0 <= i < |s| ==> IsHex(s[i])
  }

  function HexDigits(s: string): (ds: seq<nat>)
    requires AllHex(s)
    ensures |ds| == |s| && forall i :: 0 <= i < |s| ==> ds[i] == HexValue(s[i])
  {
    seq(|s|, i requires 0 <= i < |s| => HexValue(s[i]))
  }

  /** The hexadecimal text of a number, as to_str_radix(16) prints it. */
  function Hex(n: nat): string {
    if n == 0 then "0" else HexText(ToDigits(16, n))
  }

  /** Right-aligned in the given width with zeros in front; longer texts are not cut. */
  function HexPadded(n: nat, width: nat): string {
    var s := Hex(n);
    if |s| >= width then s else HexText(Zeros(width - |s|)) + s
  }

  function ParseHex(s: string): nat
    requires AllHex(s)
  {
    FromDigits(16, HexDigits(s))
  }

  lemma HexTextDigits(ds: seq<nat>)
    requires forall i :: 0 <= i < |ds| ==> ds[i] < 16
    ensures AllHex(HexText(ds)) && HexDigits(HexText(ds)) == ds
  {
    forall i | 0 <= i < |ds|
      ensures HexDigits(HexText(ds))[i] == ds[i]
    {
      HexRoundTrip(ds[i]);
    }
  }

  lemma HexValueOf(n: nat)
    ensures AllHex(Hex(n)) && ParseHex(Hex(n)) == n
  {
    if n > 0 {
      HexTextDigits(ToDigits(16, n));
      DigitsRoundTrip(16, n);
    } else {
      assert HexDigits("0") == Zeros(1) + [];
      ZerosVanish(16, 1, []);
    }
  }

  lemma HexLength(n: nat, width: nat)
    requires width > 0
    ensures |Hex(n)| <= width <==> n < Pow(16, width)
  {
    DigitCount(16, n, width);
    PowPositive(16, width);
  }

  /** The padded text decodes to the number, and has the width exactly if the number fits it. */
  lemma HexPaddedRoundTrip(n: nat, width: nat)
    requires width > 0
    ensures AllHex(HexPadded(n, width)) && ParseHex(HexPadded(n, width)) == n
    ensures |HexPadded(n, width)| >= width
    ensures |HexPadded(n, width)| == width <==> n < Pow(16, width)
  {
    hide ToDigits, FromDigits, Pow;
    HexValueOf(n);
    HexLength(n, width);
    var s := Hex(n);
    if |s| < width {
      var zeros := Zeros(width - |s|);
      HexTextDigits(zeros);
      assert HexDigits(HexPadded(n, width)) == zeros + HexDigits(s);
      ZerosVanish(16, width - |s|, HexDigits(s));
    }
  }

  /** The text of a signature: r and s in 64 digits each and the recovery id in two. */
  function SignatureText(r: nat, s: nat, v: nat): string {
    HexPadded(r, 64) + HexPadded(s, 64) + HexPadded(v, 2)
  }

  function ParseSignature(t: string): Option<(nat, nat, nat)> {
    if |t| != 130 || !AllHex(t) then None
    else
      assert AllHex(t[..64]) && AllHex(t[64..128]) && AllHex(t[128..]);
      Some((ParseHex(t[..64]), ParseHex(t[64..128]), ParseHex(t[128..])))
  }

  /** The text has 130 digits exactly if all three numbers are in range, and then it decodes to them. */
  lemma SignatureTextRoundTrip(r: nat, s: nat, v: nat)
    ensures |SignatureText(r, s, v)| == 130 <==> r < TWO_TO_THE_256 && s < TWO_TO_THE_256 && v < 256
    ensures |SignatureText(r, s, v)| == 130 ==> ParseSignature(SignatureText(r, s, v)) == Some((r, s, v))
    ensures |SignatureText(r, s, v)| == 130 ==>
      var t := SignatureText(r, s, v);
      && AllHex(t[..64]) && FromDigits(16, HexDigits(t[..64])) == r
      && AllHex(t[64..128]) && FromDigits(16, HexDigits(t[64..128])) == s
      && AllHex(t[128..]) && FromDigits(16, HexDigits(t[128..])) == v
  {
    hide HexPadded, Pow, FromDigits, HexDigits;
    Pow256();
    HexPaddedRoundTrip(r, 64);
    HexPaddedRoundTrip(s, 64);
    HexPaddedRoundTrip(v, 2);
    var t := SignatureText(r, s, v);
    if |t| == 130 {
      assert t[..64] == HexPadded(r, 64) && t[64..128] == HexPadded(s, 64) && t[128..] == HexPadded(v, 2);
    }
  }

  // ----------------------------------------------------------------------------------------------
  // The byte buffers of check_sig, built in place
  // ----------------------------------------------------------------------------------------------

  /** A growable byte buffer. */
  class Buffer {
    var bytes: seq<Byte>

    constructor ()
      ensures bytes == []
    {
      bytes := [];
    }

    method Extend(more: seq<Byte>)
      modifies this
      ensures bytes == old(bytes) + more
    {
      bytes := bytes + more;
    }
  }

  /** Extends the buffer by the raw bytes, padded to 32. False is the panic on a negative padding. */
  method ExtendPadded(buffer: Buffer, raw: seq<Byte>) returns (ok: bool)
    modifies buffer
    ensures ok <==> LeftPad(raw, 32).Some?
    ensures buffer.bytes == if ok then old(buffer.bytes) + LeftPad(raw, 32).value else old(buffer.bytes)
  {
    if |raw| > 32 {
      return false;
    }
    buffer.Extend(Zeros(32 - |raw|));
    buffer.Extend(raw);
    ok := true;
  }

  /** The padded message and the compact signature that the final check hands to the verifier. */
  method CheckSigInputs(r: nat, s: nat, message: nat) returns (result: Option<(seq<Byte>, seq<Byte>)>)
    ensures result.Some? <==> Bytes32(message).Some? && Compact(r, s).Some?
    ensures result.Some? ==> result.value == (Bytes32(message).value, Compact(r, s).value)
  {
    hide ToBytes, Zeros;
    var msg := new Buffer();
    var compact := new Buffer();
    var okM := ExtendPadded(msg, ToBytes(message));
    if !okM {
      return None;
    }
    var okR := ExtendPadded(compact, ToBytes(r));
    if !okR {
      return None;
    }
    var okS := ExtendPadded(compact, ToBytes(s));
    if !okS {
      return None;
    }
    assert msg.bytes == Bytes32(message).value && compact.bytes == Compact(r, s).value;
    result := Some((msg.bytes, compact.bytes));
  }
}
