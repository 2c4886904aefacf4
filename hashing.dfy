/**
 * `hash_string`: the lowercase hex encoding of the SHA-256 digest of a query text. The
 * digest itself is a parameter (any function from texts to 32-byte sequences); hex encoding
 * is modelled concretely, together with its inverse.
 */
module Hashing {
  import opened Wrappers

  newtype byte = x: int | 0 <= x < 256

  /** A SHA-256 digest: 32 bytes. */
  type Digest = s: seq<byte> | |s| == 32 witness seq(32, _ => 0 as byte)

  /** SHA-256 of the UTF-8 bytes of a text. */
  type Sha256 = string -> Digest

  predicate IsLowerHex(c: char)
  {
    '0' <= c <= '9' || 'a' <= c <= 'f'
  }

  /** The lowercase hex digit for `n`. */
  function HexDigit(n: int): (c: char)
    requires 0 <= n < 16
    ensures IsLowerHex(c)
  {
    if n < 10 then ('0' as int + n) as char else ('a' as int + n - 10) as char
  }

  /** The value of a hex digit, if `c` is one (either case, as `hex::decode` accepts). */
  function HexValue(c: char): (r: Option<int>)
    ensures r.Some? ==> 0 <= r.value < 16
    ensures IsLowerHex(c) ==> r.Some? && HexDigit(r.value) == c
  {
    if '0' <= c <= '9' then Some(c as int - '0' as int)
    else if 'a' <= c <= 'f' then Some(c as int - 'a' as int + 10)
    else if 'A' <= c <= 'F' then Some(c as int - 'A' as int + 10)
    else None
  }

  /** `hex::encode`: two lowercase hex digits per byte, high nibble first. */
  function HexEncode(bytes: seq<byte>): (s: string)
    ensures |s| == 2 * |bytes|
    ensures forall i :: 0 <= i < |s| ==> IsLowerHex(s[i])
  {
    if bytes == [] then ""
    else [HexDigit(bytes[0] as int / 16), HexDigit(bytes[0] as int % 16)] + HexEncode(bytes[1..])
  }

  /** `hex::decode`: the inverse of `HexEncode`, failing on odd length or a non-hex digit. */
  function HexDecode(s: string): Option<seq<byte>>
    decreases |s|
  {
    if s == "" then Some([])
    else if |s| == 1 then None
    else
      match (HexValue(s[0]), HexValue(s[1]), HexDecode(s[2..]))
      case (Some(hi), Some(lo), Some(rest)) => Some([(hi * 16 + lo) as byte] + rest)
      case _ => None
  }

  /** Decoding an encoding gives back the bytes. */
  lemma {:induction false} HexRoundTrip(bytes: seq<byte>)
    ensures HexDecode(HexEncode(bytes)) == Some(bytes)
  {
    if bytes != [] {
      var s := HexEncode(bytes);
      var b := bytes[0] as int;
      HexRoundTrip(bytes[1..]);
      assert s[2..] == HexEncode(bytes[1..]);
      assert HexValue(s[0]) == Some(b / 16);
      assert HexValue(s[1]) == Some(b % 16);
      assert (b / 16 * 16 + b % 16) as byte == bytes[0];
      assert bytes == [bytes[0]] + bytes[1..];
    }
  }

  /** `hash_string`: the hex encoding of the digest of `query`. */
  function HashString(sha: Sha256, query: string): (h: string)
    ensures |h| == 64
    ensures forall i :: 0 <= i < |h| ==> IsLowerHex(h[i])
    ensures HexDecode(h) == Some(sha(query))
  {
    HexRoundTrip(sha(query));
    HexEncode(sha(query))
  }

  /** Two texts have the same hash string exactly when they have the same digest. */
  lemma HashStringIdentifiesDigest(sha: Sha256, a: string, b: string)
    ensures HashString(sha, a) == HashString(sha, b) <==> sha(a) == sha(b)
  {
    if HashString(sha, a) == HashString(sha, b) {
      assert Some(sha(a)) == HexDecode(HashString(sha, a));
    }
  }
}
