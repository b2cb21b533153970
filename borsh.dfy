/**
 * The Borsh binary format as the deal_platform program and its clients use it:
 * little-endian fixed-width integers, strings as a u32 byte length followed by
 * UTF-8 bytes, fixed 32-byte keys written verbatim.
 *
 * Every reader takes a byte sequence and returns the value together with the
 * bytes that follow it, so record readers are sequences of field readers.
 */
module Borsh {

  type byte = b: int | 0 <= b < 256

  const U32_LIMIT: int := 0x1_0000_0000
  const U64_LIMIT: int := 0x1_0000_0000_0000_0000
  const I64_MIN: int := -0x8000_0000_0000_0000
  const I64_LIMIT: int := 0x8000_0000_0000_0000

  type u8 = byte
  type u32 = n: int | 0 <= n < 0x1_0000_0000
  type u64 = n: int | 0 <= n < 0x1_0000_0000_0000_0000
  type i64 = n: int | -0x8000_0000_0000_0000 <= n < 0x8000_0000_0000_0000

  /** A 32-byte public key (`Pubkey`, `[u8; 32]`). */
  type Pubkey = s: seq<byte> | |s| == 32 witness ZeroBytes(32)

  /** A Rust `String`: valid UTF-8 whose byte length fits the u32 prefix. */
  type Text = s: seq<byte> | |s| < 0x1_0000_0000 && ValidUtf8(s) witness []

  /** `Pubkey::default()`: the all-zero key. */
  const ZERO_KEY: Pubkey := ZeroBytes(32)

  datatype Option<+T> = None | Some(value: T) {
    predicate IsFailure() { None? }
    function PropagateFailure<U>(): Option<U> requires None? { None }
    function Extract(): T requires Some? { value }
  }

  function ZeroBytes(n: nat): (r: seq<byte>)
    ensures |r| == n && forall i :: 0 <= i < n ==> r[i] == 0
  {
    seq(n, _ => 0)
  }

  function Pow256(width: nat): (p: nat)
    ensures p >= 1
  {
    if width == 0 then 1 else 256 * Pow256(width - 1)
  }

  // ---------------------------------------------------------------------------
  // Little-endian integers

  /** The `width` little-endian bytes of `n`. */
  function LeBytes(n: nat, width: nat): (r: seq<byte>)
    requires n < Pow256(width)
    ensures |r| == width
  {
    if width == 0 then [] else [n % 256] + LeBytes(n / 256, width - 1)
  }

  /** The unsigned value of little-endian bytes. */
  function LeValue(s: seq<byte>): (n: nat)
    ensures n < Pow256(|s|)
  {
    if s == [] then 0 else s[0] + 256 * LeValue(s[1..])
  }

  lemma {:induction false} LeValueOfLeBytes(n: nat, width: nat)
    requires n < Pow256(width)
    ensures LeValue(LeBytes(n, width)) == n
  {
    if width > 0 {
      LeValueOfLeBytes(n / 256, width - 1);
      assert LeBytes(n, width)[1..] == LeBytes(n / 256, width - 1);
    }
  }

  lemma {:induction false} LeBytesOfLeValue(s: seq<byte>)
    ensures LeBytes(LeValue(s), |s|) == s
  {
    if s != [] {
      LeBytesOfLeValue(s[1..]);
      assert LeValue(s) % 256 == s[0];
      assert LeValue(s) / 256 == LeValue(s[1..]);
    }
  }

  /** Two byte strings of one width with the same value are the same bytes. */
  lemma LeBytesInjective(a: nat, b: nat, width: nat)
    requires a < Pow256(width) && b < Pow256(width)
    requires LeBytes(a, width) == LeBytes(b, width)
    ensures a == b
  {
    LeValueOfLeBytes(a, width);
    LeValueOfLeBytes(b, width);
  }

  lemma Pow256Values()
    ensures Pow256(1) == 256 && Pow256(4) == U32_LIMIT && Pow256(8) == U64_LIMIT
  {
  }

  function EncodeU8(x: u8): (r: seq<byte>)
    ensures r == [x]
  {
    [x]
  }

  function EncodeU32(x: u32): (r: seq<byte>)
    ensures |r| == 4
  {
    Pow256Values();
    LeBytes(x, 4)
  }

  /** Zero is written as all-zero bytes. */
  lemma {:induction false} LeBytesZero(width: nat)
    ensures LeBytes(0, width) == ZeroBytes(width)
  {
    if width > 0 {
      LeBytesZero(width - 1);
      assert LeBytes(0, width) == [0] + ZeroBytes(width - 1);
    }
  }

  function EncodeU64(x: u64): (r: seq<byte>)
    ensures |r| == 8
  {
    Pow256Values();
    LeBytes(x, 8)
  }

  /** Two's complement: a negative `x` is written as `x + 2^64`. */
  function EncodeI64(x: i64): (r: seq<byte>)
    ensures |r| == 8
  {
    Pow256Values();
    LeBytes(if x < 0 then x + U64_LIMIT else x, 8)
  }

  function ReadU8(s: seq<byte>): (r: Option<(u8, seq<byte>)>)
    ensures r.Some? <==> |s| >= 1
    ensures r.Some? ==> s == [r.value.0] + r.value.1
  {
    if |s| < 1 then None else Some((s[0], s[1..]))
  }

  function ReadU32(s: seq<byte>): (r: Option<(u32, seq<byte>)>)
    ensures r.Some? <==> |s| >= 4
    ensures r.Some? ==> r.value.1 == s[4..]
  {
    if |s| < 4 then None
    else
      Pow256Values();
      Some((LeValue(s[..4]), s[4..]))
  }

  function ReadU64(s: seq<byte>): (r: Option<(u64, seq<byte>)>)
    ensures r.Some? <==> |s| >= 8
    ensures r.Some? ==> r.value.1 == s[8..]
  {
    if |s| < 8 then None
    else
      Pow256Values();
      Some((LeValue(s[..8]), s[8..]))
  }

  function ReadI64(s: seq<byte>): (r: Option<(i64, seq<byte>)>)
    ensures r.Some? <==> |s| >= 8
    ensures r.Some? ==> r.value.1 == s[8..]
  {
    if |s| < 8 then None
    else
      Pow256Values();
      var v := LeValue(s[..8]);
      Some((if v >= I64_LIMIT then v - U64_LIMIT else v, s[8..]))
  }

  function ReadPubkey(s: seq<byte>): (r: Option<(Pubkey, seq<byte>)>)
    ensures r.Some? <==> |s| >= 32
    ensures r.Some? ==> s == r.value.0 + r.value.1
  {
    if |s| < 32 then None else Some((s[..32], s[32..]))
  }

  lemma ReadU8Encode(x: u8, rest: seq<byte>)
    ensures ReadU8(EncodeU8(x) + rest) == Some((x, rest))
  {
    assert (EncodeU8(x) + rest)[1..] == rest;
  }

  lemma ReadU32Encode(x: u32, rest: seq<byte>)
    ensures ReadU32(EncodeU32(x) + rest) == Some((x, rest))
  {
    Pow256Values();
    var s := EncodeU32(x) + rest;
    assert s[..4] == LeBytes(x, 4);
    LeValueOfLeBytes(x, 4);
    assert s[4..] == rest;
  }

  lemma ReadU64Encode(x: u64, rest: seq<byte>)
    ensures ReadU64(EncodeU64(x) + rest) == Some((x, rest))
  {
    Pow256Values();
    var s := EncodeU64(x) + rest;
    assert s[..8] == LeBytes(x, 8);
    LeValueOfLeBytes(x, 8);
    assert s[8..] == rest;
  }

  lemma ReadI64Encode(x: i64, rest: seq<byte>)
    ensures ReadI64(EncodeI64(x) + rest) == Some((x, rest))
  {
    Pow256Values();
    var s := EncodeI64(x) + rest;
    var u := if x < 0 then x + U64_LIMIT else x;
    assert s[..8] == LeBytes(u, 8);
    LeValueOfLeBytes(u, 8);
    assert s[8..] == rest;
  }

  lemma ReadPubkeyEncode(k: Pubkey, rest: seq<byte>)
    ensures ReadPubkey(k + rest) == Some((k, rest))
  {
    assert (k + rest)[..32] == k;
    assert (k + rest)[32..] == rest;
  }

  /** What ReadU32 consumed is the encoding of what it returned. */
  lemma ReadU32Canonical(s: seq<byte>)
    requires ReadU32(s).Some?
    ensures s == EncodeU32(ReadU32(s).value.0) + ReadU32(s).value.1
  {
    LeBytesOfLeValue(s[..4]);
    assert s == s[..4] + s[4..];
  }

  lemma ReadU64Canonical(s: seq<byte>)
    requires ReadU64(s).Some?
    ensures s == EncodeU64(ReadU64(s).value.0) + ReadU64(s).value.1
  {
    LeBytesOfLeValue(s[..8]);
    assert s == s[..8] + s[8..];
  }

  lemma ReadI64Canonical(s: seq<byte>)
    requires ReadI64(s).Some?
    ensures s == EncodeI64(ReadI64(s).value.0) + ReadI64(s).value.1
  {
    Pow256Values();
    LeBytesOfLeValue(s[..8]);
    assert s == s[..8] + s[8..];
  }

  // ---------------------------------------------------------------------------
  // UTF-8, as Rust's `String::from_utf8` accepts it (the well-formed byte
  // sequences of RFC 3629, section 4: no overlong forms, no surrogates, nothing
  // above U+10FFFF)

  /** The length of the well-formed character at the front of `s`, or 0 if there is none. */
  function Utf8CharLen(s: seq<byte>): (n: nat)
    ensures n <= 4 && n <= |s|
    ensures s == [] ==> n == 0
  {
    if s == [] then 0
    else
      var b0 := s[0];
      if b0 < 0x80 then 1
      else if 0xC2 <= b0 <= 0xDF then
        if |s| >= 2 && IsTrail(s[1]) then 2 else 0
      else if 0xE0 <= b0 <= 0xEF then
        var lo := if b0 == 0xE0 then 0xA0 else 0x80;
        var hi := if b0 == 0xED then 0x9F else 0xBF;
        if |s| >= 3 && lo <= s[1] <= hi && IsTrail(s[2]) then 3 else 0
      else if 0xF0 <= b0 <= 0xF4 then
        var lo := if b0 == 0xF0 then 0x90 else 0x80;
        var hi := if b0 == 0xF4 then 0x8F else 0xBF;
        if |s| >= 4 && lo <= s[1] <= hi && IsTrail(s[2]) && IsTrail(s[3]) then 4 else 0
      else 0
  }

  predicate IsTrail(b: byte) { 0x80 <= b <= 0xBF }

  predicate ValidUtf8(s: seq<byte>)
    decreases |s|
  {
    s == [] || (Utf8CharLen(s) > 0 && ValidUtf8(s[Utf8CharLen(s)..]))
  }

  /** Plain ASCII is valid UTF-8 (the seed tags and the literals of this program). */
  lemma {:induction false} AsciiIsUtf8(s: seq<byte>)
    requires forall i :: 0 <= i < |s| ==> s[i] < 0x80
    ensures ValidUtf8(s)
  {
    if s != [] {
      assert Utf8CharLen(s) == 1;
      AsciiIsUtf8(s[1..]);
    }
  }

  /** Valid UTF-8 followed by valid UTF-8 is valid UTF-8. */
  lemma {:induction false} Utf8Concat(a: seq<byte>, b: seq<byte>)
    requires ValidUtf8(a) && ValidUtf8(b)
    ensures ValidUtf8(a + b)
    decreases |a|
  {
    if a == [] {
      assert a + b == b;
    } else {
      var n := Utf8CharLen(a);
      assert (a + b)[..n] == a[..n];
      Utf8CharLenPrefix(a, a + b);
      assert (a + b)[n..] == a[n..] + b;
      Utf8Concat(a[n..], b);
    }
  }

  /** The front character only depends on the bytes it occupies. */
  lemma Utf8CharLenPrefix(a: seq<byte>, s: seq<byte>)
    requires Utf8CharLen(a) > 0
    requires |s| >= Utf8CharLen(a) && s[..Utf8CharLen(a)] == a[..Utf8CharLen(a)]
    ensures Utf8CharLen(s) == Utf8CharLen(a)
  {
    var n := Utf8CharLen(a);
    assert s[0] == a[0];
    if n >= 2 { assert s[1] == a[1]; }
    if n >= 3 { assert s[2] == a[2]; }
    if n >= 4 { assert s[3] == a[3]; }
  }

  // ---------------------------------------------------------------------------
  // Strings

  function EncodeString(s: Text): (r: seq<byte>)
    ensures |r| == 4 + |s|
  {
    EncodeU32(|s|) + s
  }

  /**
   * Reads a u32 length and that many bytes, and fails when the bytes run out
   * or are not UTF-8 (Borsh's `String` deserializer).
   */
  function ReadString(s: seq<byte>): (r: Option<(Text, seq<byte>)>)
    ensures r.Some? ==> |s| >= 4 + |r.value.0| && r.value.1 == s[4 + |r.value.0|..]
  {
    var (len, rest) :- ReadU32(s);
    if |rest| < len then None
    else if !ValidUtf8(rest[..len]) then None
    else Some((rest[..len], rest[len..]))
  }

  lemma ReadStringEncode(t: Text, rest: seq<byte>)
    ensures ReadString(EncodeString(t) + rest) == Some((t, rest))
  {
    var s := EncodeString(t) + rest;
    assert s == EncodeU32(|t|) + (t + rest);
    ReadU32Encode(|t|, t + rest);
    assert (t + rest)[..|t|] == t;
    assert (t + rest)[|t|..] == rest;
  }

  lemma ReadStringCanonical(s: seq<byte>)
    requires ReadString(s).Some?
    ensures s == EncodeString(ReadString(s).value.0) + ReadString(s).value.1
  {
    var t := ReadString(s).value.0;
    ReadU32Canonical(s);
    assert ReadU32(s).value.0 == |t|;
    assert s[4..] == t + s[4 + |t|..];
  }
}
