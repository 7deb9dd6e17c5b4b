/** Integer encodings of the Bitcoin wire format: fixed-width little and big
    endian integers, and the minimal CompactSize length prefix. */
module Encoding {
  import opened Prelude

  function Pow256(k: nat): (p: nat)
    ensures p > 0
  {
    if k == 0 then 1 else 256 * Pow256(k - 1)
  }

  lemma Pow256Values()
    ensures Pow256(2) == 0x1_0000
    ensures Pow256(4) == 0x1_0000_0000
    ensures Pow256(8) == 0x1_0000_0000_0000_0000
  {
    assert Pow256(3) == 0x100_0000;
    assert Pow256(4) == 0x1_0000_0000;
    assert Pow256(5) == 0x100_0000_0000;
    assert Pow256(6) == 0x1_0000_0000_0000;
    assert Pow256(7) == 0x100_0000_0000_0000;
  }

  /** The low `k` bytes of `n`, least significant first. */
  function LittleEndian(n: nat, k: nat): (s: Bytes)
    ensures |s| == k
  {
    if k == 0 then [] else [n % 256] + LittleEndian(n / 256, k - 1)
  }

  function LittleEndianValue(s: Bytes): nat {
    if s == [] then 0 else s[0] + 256 * LittleEndianValue(s[1..])
  }

  /** The low `k` bytes of `n`, most significant first. */
  function BigEndian(n: nat, k: nat): (s: Bytes)
    ensures |s| == k
  {
    if k == 0 then [] else BigEndian(n / 256, k - 1) + [n % 256]
  }

  function BigEndianValue(s: Bytes): nat {
    if s == [] then 0 else 256 * BigEndianValue(s[..|s| - 1]) + s[|s| - 1]
  }

  lemma {:induction false} LittleEndianRoundTrip(n: nat, k: nat)
    requires n < Pow256(k)
    ensures LittleEndianValue(LittleEndian(n, k)) == n
  {
    if k > 0 {
      LittleEndianRoundTrip(n / 256, k - 1);
      assert LittleEndian(n, k)[1..] == LittleEndian(n / 256, k - 1);
    }
  }

  lemma {:induction false} BigEndianRoundTrip(n: nat, k: nat)
    requires n < Pow256(k)
    ensures BigEndianValue(BigEndian(n, k)) == n
  {
    if k > 0 {
      BigEndianRoundTrip(n / 256, k - 1);
      assert BigEndian(n, k)[..k - 1] == BigEndian(n / 256, k - 1);
    }
  }

  /** Big-endian decoding loses nothing: the bytes come back from the value. */
  lemma {:induction false} BigEndianOfValue(s: Bytes)
    ensures BigEndianValue(s) < Pow256(|s|)
    ensures BigEndian(BigEndianValue(s), |s|) == s
  {
    if s != [] {
      var front, last := s[..|s| - 1], s[|s| - 1];
      BigEndianOfValue(front);
      DivMod256(BigEndianValue(front), last, Pow256(|front|));
      assert s == front + [last];
    }
  }

  lemma DivMod256(v: nat, b: Byte, bound: nat)
    requires v < bound
    ensures (256 * v + b) / 256 == v && (256 * v + b) % 256 == b && 256 * v + b < 256 * bound
  {
  }

  lemma {:induction false} LittleEndianBound(s: Bytes)
    ensures LittleEndianValue(s) < Pow256(|s|)
  {
    if s != [] {
      LittleEndianBound(s[1..]);
    }
  }

  /** A decoded value together with the bytes that follow it. */
  datatype Parsed<+T> = Parsed(value: T, rest: Bytes)

  function DecodeLittleEndian(bytes: Bytes, k: nat): Option<Parsed<nat>> {
    if |bytes| < k then None
    else Some(Parsed(LittleEndianValue(bytes[..k]), bytes[k..]))
  }

  lemma DecodeLittleEndianRoundTrip(n: nat, k: nat, rest: Bytes)
    requires n < Pow256(k)
    ensures DecodeLittleEndian(LittleEndian(n, k) + rest, k) == Some(Parsed(n, rest))
  {
    LittleEndianRoundTrip(n, k);
    var all := LittleEndian(n, k) + rest;
    assert all[..k] == LittleEndian(n, k) && all[k..] == rest;
  }

  // ----- CompactSize

  function CompactSize(n: nat): (s: Bytes)
    ensures |s| == CompactSizeLength(n)
  {
    if n < 0xFD then [n]
    else if n <= U16_MAX then [0xFD] + LittleEndian(n, 2)
    else if n <= U32_MAX then [0xFE] + LittleEndian(n, 4)
    else [0xFF] + LittleEndian(n, 8)
  }

  function CompactSizeLength(n: nat): nat {
    if n < 0xFD then 1 else if n <= U16_MAX then 3 else if n <= U32_MAX then 5 else 9
  }

  /** `Some(p)` when the value is too large for any shorter form. */
  function AtLeast(p: Option<Parsed<nat>>, bound: nat): Option<Parsed<nat>> {
    if p.Some? && p.value.value < bound then None else p
  }

  function DecodeCompactSize(bytes: Bytes): Option<Parsed<nat>> {
    if bytes == [] then None
    else if bytes[0] < 0xFD then Some(Parsed(bytes[0], bytes[1..]))
    else if bytes[0] == 0xFD then AtLeast(DecodeLittleEndian(bytes[1..], 2), 0xFD)
    else if bytes[0] == 0xFE then AtLeast(DecodeLittleEndian(bytes[1..], 4), 0x1_0000)
    else AtLeast(DecodeLittleEndian(bytes[1..], 8), 0x1_0000_0000)
  }

  lemma PrefixedRoundTrip(prefix: Byte, n: nat, k: nat, rest: Bytes)
    requires n < Pow256(k)
    ensures DecodeLittleEndian((([prefix] + LittleEndian(n, k)) + rest)[1..], k) == Some(Parsed(n, rest))
  {
    assert (([prefix] + LittleEndian(n, k)) + rest)[1..] == LittleEndian(n, k) + rest;
    DecodeLittleEndianRoundTrip(n, k, rest);
  }

  lemma CompactSizeRoundTrip(n: nat, rest: Bytes)
    requires n <= U64_MAX
    ensures DecodeCompactSize(CompactSize(n) + rest) == Some(Parsed(n, rest))
  {
    Pow256Values();
    if n < 0xFD {
      assert ([n] + rest)[1..] == rest;
    } else if n <= U16_MAX {
      PrefixedRoundTrip(0xFD, n, 2, rest);
    } else if n <= U32_MAX {
      PrefixedRoundTrip(0xFE, n, 4, rest);
    } else {
      PrefixedRoundTrip(0xFF, n, 8, rest);
    }
  }

  // ----- Length-prefixed bytes

  function EncodeBytes(s: Bytes): Bytes {
    CompactSize(|s|) + s
  }

  function DecodeBytes(bytes: Bytes): Option<Parsed<Bytes>> {
    match DecodeCompactSize(bytes)
    case None => None
    case Some(Parsed(n, rest)) =>
      if |rest| < n then None else Some(Parsed(rest[..n], rest[n..]))
  }

  lemma BytesRoundTrip(s: Bytes, rest: Bytes)
    requires |s| <= U64_MAX
    ensures DecodeBytes(EncodeBytes(s) + rest) == Some(Parsed(s, rest))
  {
    CompactSizeRoundTrip(|s|, s + rest);
    assert EncodeBytes(s) + rest == CompactSize(|s|) + (s + rest);
    assert (s + rest)[..|s|] == s && (s + rest)[|s|..] == rest;
  }

  // ----- Lists of items, one after another

  function EncodeMany<T>(encode: T -> Bytes, items: seq<T>): Bytes {
    if items == [] then [] else encode(items[0]) + EncodeMany(encode, items[1..])
  }

  function DecodeMany<T>(decode: Bytes -> Option<Parsed<T>>, n: nat, bytes: Bytes): Option<Parsed<seq<T>>> {
    if n == 0 then Some(Parsed([], bytes)) else
    match decode(bytes)
    case None => None
    case Some(Parsed(first, rest)) =>
      match DecodeMany(decode, n - 1, rest)
      case None => None
      case Some(Parsed(others, rest')) => Some(Parsed([first] + others, rest'))
  }

  lemma {:induction false} ManyRoundTrip<T>(encode: T -> Bytes, decode: Bytes -> Option<Parsed<T>>, items: seq<T>,
                                            rest: Bytes)
    requires forall i, tail | 0 <= i < |items| :: decode(encode(items[i]) + tail) == Some(Parsed(items[i], tail))
    ensures DecodeMany(decode, |items|, EncodeMany(encode, items) + rest) == Some(Parsed(items, rest))
  {
    if items == [] {
      assert EncodeMany(encode, items) + rest == rest;
    } else {
      var tail := EncodeMany(encode, items[1..]) + rest;
      assert EncodeMany(encode, items) + rest == encode(items[0]) + tail;
      ManyRoundTrip(encode, decode, items[1..], rest);
      assert items == [items[0]] + items[1..];
    }
  }
}
