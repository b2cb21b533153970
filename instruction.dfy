/**
 * The program's instruction enum and its Borsh wire form: one tag byte (the
 * variant's declaration index) followed by the variant's fields.
 *
 * ListNft and BuyNft are dispatched by the processor but missing from the
 * enum as written; they are appended after SetCollectionMint as tags 8 and 9,
 * so tags 0 to 7 keep their declared values.
 */
module Instruction {
  import opened Borsh

  datatype DealInstruction =
    | RegisterMerchant(name: Text, uri: Text)
    | CreateDeal(dealId: u64, title: Text, description: Text, discountPercent: u8, expiry: i64,
                 totalSupply: u32, imageUri: Text, metadataUri: Text)
    | MintCouponNft(dealId: u64)
    | RedeemCoupon(mint: Pubkey)
    | AddReview(dealId: u64, rating: u8, comment: Text)
    | VerifyAndCountMint(dealId: u64, mint: Pubkey)
    | RedeemAndBurn(mint: Pubkey)
    | SetCollectionMint(collectionMint: Pubkey)
    | ListNft(price: u64)
    | BuyNft

  const VARIANT_COUNT: nat := 10

  /** The Borsh variant index: declaration order. */
  function Tag(ix: DealInstruction): (t: u8)
    ensures t < VARIANT_COUNT
  {
    match ix
    case RegisterMerchant(_, _) => 0
    case CreateDeal(_, _, _, _, _, _, _, _) => 1
    case MintCouponNft(_) => 2
    case RedeemCoupon(_) => 3
    case AddReview(_, _, _) => 4
    case VerifyAndCountMint(_, _) => 5
    case RedeemAndBurn(_) => 6
    case SetCollectionMint(_) => 7
    case ListNft(_) => 8
    case BuyNft => 9
  }

  function EncodePayload(ix: DealInstruction): seq<byte>
  {
    match ix
    case RegisterMerchant(name, uri) => EncodeString(name) + EncodeString(uri)
    case CreateDeal(id, title, desc, discount, expiry, supply, image, meta) =>
      EncodeU64(id) + EncodeString(title) + EncodeString(desc) + EncodeU8(discount)
        + EncodeI64(expiry) + EncodeU32(supply) + EncodeString(image) + EncodeString(meta)
    case MintCouponNft(id) => EncodeU64(id)
    case RedeemCoupon(mint) => mint
    case AddReview(id, rating, comment) => EncodeU64(id) + EncodeU8(rating) + EncodeString(comment)
    case VerifyAndCountMint(id, mint) => EncodeU64(id) + mint
    case RedeemAndBurn(mint) => mint
    case SetCollectionMint(cm) => cm
    case ListNft(price) => EncodeU64(price)
    case BuyNft => []
  }

  /** The instruction data: tag byte, then the fields. */
  function Encode(ix: DealInstruction): (r: seq<byte>)
    ensures |r| >= 1 && r[0] == Tag(ix)
  {
    [Tag(ix)] + EncodePayload(ix)
  }

  function ReadCreateDeal(s: seq<byte>): (r: Option<(DealInstruction, seq<byte>)>)
    ensures r.Some? ==> r.value.0.CreateDeal?
  {
    var (id, s1) :- ReadU64(s);
    var (title, s2) :- ReadString(s1);
    var (desc, s3) :- ReadString(s2);
    var (discount, s4) :- ReadU8(s3);
    var (expiry, s5) :- ReadI64(s4);
    var (supply, s6) :- ReadU32(s5);
    var (image, s7) :- ReadString(s6);
    var (meta, s8) :- ReadString(s7);
    Some((CreateDeal(id, title, desc, discount, expiry, supply, image, meta), s8))
  }

  function ReadRegisterMerchant(s: seq<byte>): (r: Option<(DealInstruction, seq<byte>)>)
    ensures r.Some? ==> r.value.0.RegisterMerchant?
  {
    var (name, s1) :- ReadString(s);
    var (uri, s2) :- ReadString(s1);
    Some((RegisterMerchant(name, uri), s2))
  }

  function ReadAddReview(s: seq<byte>): (r: Option<(DealInstruction, seq<byte>)>)
    ensures r.Some? ==> r.value.0.AddReview?
  {
    var (id, s1) :- ReadU64(s);
    var (rating, s2) :- ReadU8(s1);
    var (comment, s3) :- ReadString(s2);
    Some((AddReview(id, rating, comment), s3))
  }

  function ReadVerifyAndCountMint(s: seq<byte>): (r: Option<(DealInstruction, seq<byte>)>)
    ensures r.Some? ==> r.value.0.VerifyAndCountMint?
  {
    var (id, s1) :- ReadU64(s);
    var (mint, s2) :- ReadPubkey(s1);
    Some((VerifyAndCountMint(id, mint), s2))
  }

  function ReadU64Variant(tag: byte, s: seq<byte>): (r: Option<(DealInstruction, seq<byte>)>)
    requires tag == 2 || tag == 8
    ensures r.Some? ==> Tag(r.value.0) == tag
  {
    var (n, s1) :- ReadU64(s);
    Some((if tag == 2 then MintCouponNft(n) else ListNft(n), s1))
  }

  function ReadKeyVariant(tag: byte, s: seq<byte>): (r: Option<(DealInstruction, seq<byte>)>)
    requires tag == 3 || tag == 6 || tag == 7
    ensures r.Some? ==> Tag(r.value.0) == tag
  {
    var (key, s1) :- ReadPubkey(s);
    Some((if tag == 3 then RedeemCoupon(key) else if tag == 6 then RedeemAndBurn(key)
          else SetCollectionMint(key), s1))
  }

  /** Reads the fields of the variant with tag `tag`. */
  function ReadPayload(tag: byte, s: seq<byte>): (r: Option<(DealInstruction, seq<byte>)>)
    ensures r.Some? ==> Tag(r.value.0) == tag
  {
    if tag == 0 then ReadRegisterMerchant(s)
    else if tag == 1 then ReadCreateDeal(s)
    else if tag == 2 || tag == 8 then ReadU64Variant(tag, s)
    else if tag == 3 || tag == 6 || tag == 7 then ReadKeyVariant(tag, s)
    else if tag == 4 then ReadAddReview(s)
    else if tag == 5 then ReadVerifyAndCountMint(s)
    else if tag == 9 then Some((BuyNft, s))
    else None
  }

  /** Reads one instruction from the front of `s`. */
  function ReadInstruction(s: seq<byte>): (r: Option<(DealInstruction, seq<byte>)>)
    ensures r.Some? ==> |s| >= 1 && s[0] < VARIANT_COUNT
  {
    if s == [] then None
    else
      var (ix, rest) :- ReadPayload(s[0], s[1..]);
      Some((ix, rest))
  }

  /** `DealInstruction::try_from_slice`: every byte must be used. */
  function Decode(s: seq<byte>): Option<DealInstruction>
  {
    var (ix, rest) :- ReadInstruction(s);
    if rest == [] then Some(ix) else None
  }

  lemma ReadCreateDealEncode(ix: DealInstruction, rest: seq<byte>)
    requires ix.CreateDeal?
    ensures ReadCreateDeal(EncodePayload(ix) + rest) == Some((ix, rest))
  {
    var t7 := EncodeString(ix.metadataUri) + rest;
    var t6 := EncodeString(ix.imageUri) + t7;
    var t5 := EncodeU32(ix.totalSupply) + t6;
    var t4 := EncodeI64(ix.expiry) + t5;
    var t3 := EncodeU8(ix.discountPercent) + t4;
    var t2 := EncodeString(ix.description) + t3;
    var t1 := EncodeString(ix.title) + t2;
    var e0 := EncodeU64(ix.dealId);
    assert EncodePayload(ix) == e0 + EncodeString(ix.title) + EncodeString(ix.description)
      + EncodeU8(ix.discountPercent) + EncodeI64(ix.expiry) + EncodeU32(ix.totalSupply)
      + EncodeString(ix.imageUri) + EncodeString(ix.metadataUri);
    assert EncodePayload(ix) + rest == e0 + t1;
    ReadU64Encode(ix.dealId, t1);
    ReadStringEncode(ix.title, t2);
    ReadStringEncode(ix.description, t3);
    ReadU8Encode(ix.discountPercent, t4);
    ReadI64Encode(ix.expiry, t5);
    ReadU32Encode(ix.totalSupply, t6);
    ReadStringEncode(ix.imageUri, t7);
    ReadStringEncode(ix.metadataUri, rest);
  }

  lemma ReadRegisterMerchantEncode(ix: DealInstruction, rest: seq<byte>)
    requires ix.RegisterMerchant?
    ensures ReadRegisterMerchant(EncodePayload(ix) + rest) == Some((ix, rest))
  {
    assert EncodePayload(ix) + rest == EncodeString(ix.name) + (EncodeString(ix.uri) + rest);
    ReadStringEncode(ix.name, EncodeString(ix.uri) + rest);
    ReadStringEncode(ix.uri, rest);
  }

  lemma ReadAddReviewEncode(ix: DealInstruction, rest: seq<byte>)
    requires ix.AddReview?
    ensures ReadAddReview(EncodePayload(ix) + rest) == Some((ix, rest))
  {
    var t2 := EncodeString(ix.comment) + rest;
    var t1 := EncodeU8(ix.rating) + t2;
    assert EncodePayload(ix) + rest == EncodeU64(ix.dealId) + t1;
    ReadU64Encode(ix.dealId, t1);
    ReadU8Encode(ix.rating, t2);
    ReadStringEncode(ix.comment, rest);
  }

  lemma ReadVerifyAndCountMintEncode(ix: DealInstruction, rest: seq<byte>)
    requires ix.VerifyAndCountMint?
    ensures ReadVerifyAndCountMint(EncodePayload(ix) + rest) == Some((ix, rest))
  {
    assert EncodePayload(ix) + rest == EncodeU64(ix.dealId) + (ix.mint + rest);
    ReadU64Encode(ix.dealId, ix.mint + rest);
    ReadPubkeyEncode(ix.mint, rest);
  }

  lemma ReadPayloadEncode(ix: DealInstruction, rest: seq<byte>)
    ensures ReadPayload(Tag(ix), EncodePayload(ix) + rest) == Some((ix, rest))
  {
    match ix
    case RegisterMerchant(_, _) => ReadRegisterMerchantEncode(ix, rest);
    case CreateDeal(_, _, _, _, _, _, _, _) => ReadCreateDealEncode(ix, rest);
    case MintCouponNft(id) => ReadU64Encode(id, rest);
    case RedeemCoupon(mint) => ReadPubkeyEncode(mint, rest);
    case AddReview(_, _, _) => ReadAddReviewEncode(ix, rest);
    case VerifyAndCountMint(_, _) => ReadVerifyAndCountMintEncode(ix, rest);
    case RedeemAndBurn(mint) => ReadPubkeyEncode(mint, rest);
    case SetCollectionMint(cm) => ReadPubkeyEncode(cm, rest);
    case ListNft(price) => ReadU64Encode(price, rest);
    case BuyNft => assert EncodePayload(ix) + rest == rest;
  }

  lemma ReadInstructionEncode(ix: DealInstruction, rest: seq<byte>)
    ensures ReadInstruction(Encode(ix) + rest) == Some((ix, rest))
  {
    var s := Encode(ix) + rest;
    assert s[0] == Tag(ix);
    assert s[1..] == EncodePayload(ix) + rest;
    ReadPayloadEncode(ix, rest);
  }

  /** Decoding an encoded instruction gives it back. */
  lemma DecodeEncode(ix: DealInstruction)
    ensures Decode(Encode(ix)) == Some(ix)
  {
    ReadInstructionEncode(ix, []);
    assert Encode(ix) + [] == Encode(ix);
  }

  lemma ReadCreateDealCanonical(s: seq<byte>)
    requires ReadCreateDeal(s).Some?
    ensures s == EncodePayload(ReadCreateDeal(s).value.0) + ReadCreateDeal(s).value.1
  {
    assert ReadU64(s).Some?;
    var (id, s1) := ReadU64(s).value;
    assert ReadString(s1).Some?;
    var (title, s2) := ReadString(s1).value;
    assert ReadString(s2).Some?;
    var (desc, s3) := ReadString(s2).value;
    assert ReadU8(s3).Some?;
    var (discount, s4) := ReadU8(s3).value;
    assert ReadI64(s4).Some?;
    var (expiry, s5) := ReadI64(s4).value;
    assert ReadU32(s5).Some?;
    var (supply, s6) := ReadU32(s5).value;
    assert ReadString(s6).Some?;
    var (image, s7) := ReadString(s6).value;
    assert ReadString(s7).Some?;
    var (meta, rest) := ReadString(s7).value;
    var ix := CreateDeal(id, title, desc, discount, expiry, supply, image, meta);
    assert ReadCreateDeal(s) == Some((ix, rest));
    ReadU64Canonical(s);
    ReadStringCanonical(s1);
    ReadStringCanonical(s2);
    ReadI64Canonical(s4);
    ReadU32Canonical(s5);
    ReadStringCanonical(s6);
    ReadStringCanonical(s7);
    var e1, e2, e3, e4 := EncodeU64(id), EncodeString(title), EncodeString(desc), EncodeU8(discount);
    var e5, e6, e7, e8 := EncodeI64(expiry), EncodeU32(supply), EncodeString(image), EncodeString(meta);
    assert s == e1 + (e2 + (e3 + (e4 + (e5 + (e6 + (e7 + (e8 + rest)))))));
    assert EncodePayload(ix) == e1 + e2 + e3 + e4 + e5 + e6 + e7 + e8;
    SeqAssoc8(e1, e2, e3, e4, e5, e6, e7, e8, rest);
  }

  lemma SeqAssoc8(e1: seq<byte>, e2: seq<byte>, e3: seq<byte>, e4: seq<byte>, e5: seq<byte>,
                  e6: seq<byte>, e7: seq<byte>, e8: seq<byte>, rest: seq<byte>)
    ensures e1 + (e2 + (e3 + (e4 + (e5 + (e6 + (e7 + (e8 + rest)))))))
         == e1 + e2 + e3 + e4 + e5 + e6 + e7 + e8 + rest
  {
  }

  lemma ReadRegisterMerchantCanonical(s: seq<byte>)
    requires ReadRegisterMerchant(s).Some?
    ensures s == EncodePayload(ReadRegisterMerchant(s).value.0) + ReadRegisterMerchant(s).value.1
  {
    assert ReadString(s).Some?;
    var (name, s1) := ReadString(s).value;
    assert ReadString(s1).Some?;
    var (uri, rest) := ReadString(s1).value;
    assert ReadRegisterMerchant(s) == Some((RegisterMerchant(name, uri), rest));
    TwoStringsBytes(s, name, s1, uri, rest);
  }

  lemma TwoStringsBytes(s: seq<byte>, name: Text, s1: seq<byte>, uri: Text, rest: seq<byte>)
    requires ReadString(s) == Some((name, s1))
    requires ReadString(s1) == Some((uri, rest))
    ensures s == EncodePayload(RegisterMerchant(name, uri)) + rest
  {
    ReadStringCanonical(s);
    ReadStringCanonical(s1);
    var e1, e2 := EncodeString(name), EncodeString(uri);
    assert s == e1 + (e2 + rest);
    assert e1 + (e2 + rest) == e1 + e2 + rest;
  }

  lemma ReadAddReviewCanonical(s: seq<byte>)
    requires ReadAddReview(s).Some?
    ensures s == EncodePayload(ReadAddReview(s).value.0) + ReadAddReview(s).value.1
  {
    var s1 := ReadU64(s).value.1;
    var s2 := s1[1..];
    ReadU64Canonical(s);
    assert s1 == [s1[0]] + s2;
    ReadStringCanonical(s2);
  }

  lemma ReadVerifyAndCountMintCanonical(s: seq<byte>)
    requires ReadVerifyAndCountMint(s).Some?
    ensures s == EncodePayload(ReadVerifyAndCountMint(s).value.0) + ReadVerifyAndCountMint(s).value.1
  {
    var s1 := ReadU64(s).value.1;
    ReadU64Canonical(s);
    assert s1 == s1[..32] + s1[32..];
  }

  lemma ReadPayloadCanonical(tag: byte, s: seq<byte>)
    requires ReadPayload(tag, s).Some?
    ensures Tag(ReadPayload(tag, s).value.0) == tag
    ensures s == EncodePayload(ReadPayload(tag, s).value.0) + ReadPayload(tag, s).value.1
  {
    if tag == 0 {
      ReadRegisterMerchantCanonical(s);
    } else if tag == 1 {
      ReadCreateDealCanonical(s);
    } else if tag == 4 {
      ReadAddReviewCanonical(s);
    } else if tag == 5 {
      ReadVerifyAndCountMintCanonical(s);
    } else if tag == 2 || tag == 8 {
      ReadU64Canonical(s);
    }
  }

  /** The bytes Decode accepts are exactly the encoding of what it returns. */
  lemma DecodeCanonical(s: seq<byte>)
    requires Decode(s).Some?
    ensures s == Encode(Decode(s).value)
  {
    ReadPayloadCanonical(s[0], s[1..]);
    assert s == [s[0]] + s[1..];
  }

  /** A tag outside 0..9 is rejected. */
  lemma UnknownTagRejected(s: seq<byte>)
    requires |s| >= 1 && s[0] >= VARIANT_COUNT
    ensures Decode(s) == None
  {
  }

  /** Two decodable byte strings, one a prefix of the other, are the same string. */
  lemma DecodablePrefix(e: seq<byte>, k: nat)
    requires k <= |e|
    requires Decode(e).Some?
    requires Decode(e[..k]).Some?
    ensures k == |e|
  {
    var p, tail := e[..k], e[k..];
    var ix' := Decode(p).value;
    DecodeCanonical(p);
    assert e == Encode(ix') + tail;
    ReadInstructionEncode(ix', tail);
    assert ReadInstruction(e) == Some((ix', tail));
  }

  /** The only prefix of an encoding that decodes is the whole encoding. */
  lemma DecodedPrefixIsWhole(ix: DealInstruction, k: nat)
    requires k <= |Encode(ix)|
    ensures Decode(Encode(ix)[..k]).Some? ==> k == |Encode(ix)|
  {
    if Decode(Encode(ix)[..k]).Some? {
      DecodeEncode(ix);
      DecodablePrefix(Encode(ix), k);
    }
  }

  /** A strict prefix of an encoding is rejected: a cut-short instruction never decodes. */
  lemma TruncatedRejected(ix: DealInstruction, k: nat)
    requires k < |Encode(ix)|
    ensures Decode(Encode(ix)[..k]) == None
  {
    DecodedPrefixIsWhole(ix, k);
  }

  /** Bytes after a complete encoding are rejected. */
  lemma TrailingRejected(ix: DealInstruction, extra: seq<byte>)
    requires extra != []
    ensures Decode(Encode(ix) + extra) == None
  {
    ReadInstructionEncode(ix, extra);
  }
}
