/** Lowercase hexadecimal rendering of a digest, as `format!("{:x}", digest)`
    prints the 16-byte MD5 output: two digits per byte, high nibble first. */
module Hex {
  import opened Wrappers

  newtype byte = b: int | 0 <= b < 256

  /** An MD5 digest: 16 bytes (section 3.5 of RFC 1321). */
  type Digest = d: seq<byte> | |d| == 16 witness [0, 0, 0, 0, 0, 0, 0, 0, 0, 0, 0, 0, 0, 0, 0, 0]

  predicate IsLowerHexDigit(c: char)
  {
    '0' <= c <= '9' || 'a' <= c <= 'f'
  }

  function HexDigit(n: int): (c: char)
    requires 0 <= n < 16
    ensures IsLowerHexDigit(c)
  {
    if n < 10 then (48 + n) as char else (87 + n) as char
  }

  /** The value of a lowercase hexadecimal digit. */
  function DigitValue(c: char): (r: Option<int>)
    ensures r.Some? <==> IsLowerHexDigit(c)
    ensures r.Some? ==> 0 <= r.value < 16 && HexDigit(r.value) == c
  {
    if '0' <= c <= '9' then Some(c as int - 48)
    else if 'a' <= c <= 'f' then Some(c as int - 87)
    else None
  }

  /** Every byte as two lowercase digits, high nibble first. */
  function LowerHex(bs: seq<byte>): (r: string)
    ensures |r| == 2 * |bs|
    ensures forall i :: 0 <= i < |r| ==> IsLowerHexDigit(r[i])
  {
    if bs == [] then ""
    else [HexDigit(bs[0] as int / 16), HexDigit(bs[0] as int % 16)] + LowerHex(bs[1..])
  }

  /** The hexadecimal name of a digest: 32 lowercase digits. */
  function DigestHex(d: Digest): (r: string)
    ensures |r| == 32
    ensures forall i :: 0 <= i < |r| ==> IsLowerHexDigit(r[i])
  {
    LowerHex(d)
  }

  /** Reads back an even-length run of lowercase digits. */
  function ParseHex(s: string): Option<seq<byte>>
  {
    if s == "" then Some([])
    else if |s| == 1 then None
    else match (DigitValue(s[0]), DigitValue(s[1]), ParseHex(s[2..]))
      case (Some(hi), Some(lo), Some(rest)) => Some([(hi * 16 + lo) as byte] + rest)
      case _ => None
  }

  /** Byte `k` of the input is digits `2k` and `2k+1` of the output. */
  lemma {:induction false} LowerHexDigits(bs: seq<byte>, k: int)
    requires 0 <= k < |bs|
    ensures LowerHex(bs)[2 * k] == HexDigit(bs[k] as int / 16)
    ensures LowerHex(bs)[2 * k + 1] == HexDigit(bs[k] as int % 16)
    decreases k
  {
    if k > 0 {
      LowerHexDigits(bs[1..], k - 1);
      assert LowerHex(bs)[2..] == LowerHex(bs[1..]);
    }
  }

  /** Parsing the rendering gives back the bytes. */
  lemma {:induction false} HexRoundTrip(bs: seq<byte>)
    ensures ParseHex(LowerHex(bs)) == Some(bs)
    decreases |bs|
  {
    if bs != [] {
      var b := bs[0] as int;
      var s := LowerHex(bs);
      assert s[2..] == LowerHex(bs[1..]);
      HexRoundTrip(bs[1..]);
      assert DigitValue(s[0]) == Some(b / 16);
      assert DigitValue(s[1]) == Some(b % 16);
      assert ((b / 16) * 16 + b % 16) as byte == bs[0];
      assert bs == [bs[0]] + bs[1..];
    }
  }

  /** Distinct contents give distinct names. */
  lemma LowerHexInjective(a: seq<byte>, b: seq<byte>)
    requires LowerHex(a) == LowerHex(b)
    ensures a == b
  {
    HexRoundTrip(a);
    HexRoundTrip(b);
  }
}
