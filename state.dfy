/**
 * The program's account records, their Borsh layouts, the account sizes the
 * program allocates for them (`space()`), and the PDA seed tags.
 *
 * The records carry the fields the instruction handlers actually read and
 * write: Merchant with `collection_mint`, Deal with `image_uri` and
 * `metadata_uri`, and the marketplace Listing.  The allocation sizes are kept
 * exactly as written, which only cover the shorter field sets; the size lemmas
 * below say precisely when a record fits its allocation.
 */
module State {
  import opened Borsh

  const MAX_NAME_LEN: nat := 64
  const MAX_URI_LEN: nat := 200
  const MAX_TITLE_LEN: nat := 80
  const MAX_DESC_LEN: nat := 512
  const MAX_COMMENT_LEN: nat := 280

  /** `Merchant::space()`: key, name, uri and total_deals; no room for collection_mint. */
  const MERCHANT_SPACE: nat := 32 + 4 + MAX_NAME_LEN + 4 + MAX_URI_LEN + 4
  /** `Deal::space()`: no room for the two URI strings. */
  const DEAL_SPACE: nat := 8 + 32 + 4 + MAX_TITLE_LEN + 4 + MAX_DESC_LEN + 1 + 8 + 4 + 4
  const REVIEW_SPACE: nat := 32 + 32 + 1 + 4 + MAX_COMMENT_LEN + 8
  const REDEEM_LOG_SPACE: nat := 32 + 32 + 8
  /**
   * Seller, mint, price and timestamp: the exact size of a Listing record.
   * The program's `Listing::space()` is not part of this model; this value
   * is an assumption.
   */
  const LISTING_SPACE: nat := 32 + 32 + 8 + 8

  datatype Merchant = Merchant(
    merchant: Pubkey,
    name: Text,
    uri: Text,
    totalDeals: u32,
    collectionMint: Pubkey)

  datatype Deal = Deal(
    dealId: u64,
    merchant: Pubkey,
    title: Text,
    description: Text,
    discountPercent: u8,
    expiry: i64,
    totalSupply: u32,
    minted: u32,
    imageUri: Text,
    metadataUri: Text)

  datatype Review = Review(user: Pubkey, deal: Pubkey, rating: u8, comment: Text, createdAt: i64)

  datatype RedeemLog = RedeemLog(tokenMint: Pubkey, user: Pubkey, redeemedAt: i64)

  datatype Listing = Listing(seller: Pubkey, nftMint: Pubkey, price: u64, createdAt: i64)

  // ---------------------------------------------------------------------------
  // Seed tags

  /** The bytes of an ASCII literal. */
  function Ascii(s: string): (r: seq<byte>)
    requires forall i :: 0 <= i < |s| ==> s[i] < 128 as char
    ensures |r| == |s| && forall i :: 0 <= i < |s| ==> r[i] == s[i] as int
  {
    seq(|s|, i requires 0 <= i < |s| => s[i] as int)
  }

  const MERCHANT_SEED: seq<byte> := Ascii("merchant")
  const DEAL_SEED: seq<byte> := Ascii("deal")
  const REVIEW_SEED: seq<byte> := Ascii("review")
  const REDEEM_SEED: seq<byte> := Ascii("redeem")
  // `seeds::LISTING` and `seeds::ESCROW` are not part of this model; these
  // two tags are assumed values
  const LISTING_SEED: seq<byte> := Ascii("listing")
  const ESCROW_SEED: seq<byte> := Ascii("escrow")

  /** No two record kinds share a seed tag, so their PDAs come from distinct seed lists. */
  lemma SeedTagsDistinct()
    ensures MERCHANT_SEED != DEAL_SEED && MERCHANT_SEED != REVIEW_SEED && MERCHANT_SEED != REDEEM_SEED
    ensures DEAL_SEED != REVIEW_SEED && DEAL_SEED != REDEEM_SEED && REVIEW_SEED != REDEEM_SEED
    ensures LISTING_SEED !in {MERCHANT_SEED, DEAL_SEED, REVIEW_SEED, REDEEM_SEED, ESCROW_SEED}
    ensures ESCROW_SEED !in {MERCHANT_SEED, DEAL_SEED, REVIEW_SEED, REDEEM_SEED}
  {
    assert MERCHANT_SEED[0] != DEAL_SEED[0];
    assert |MERCHANT_SEED| != |REVIEW_SEED|;
    assert |MERCHANT_SEED| != |REDEEM_SEED|;
    assert |DEAL_SEED| != |REVIEW_SEED|;
    assert REVIEW_SEED[2] != REDEEM_SEED[2];
    assert |LISTING_SEED| == 7;
    assert ESCROW_SEED[0] != REVIEW_SEED[0] && ESCROW_SEED[0] != REDEEM_SEED[0];
  }

  // ---------------------------------------------------------------------------
  // Layouts

  function EncodeMerchant(m: Merchant): (r: seq<byte>)
    ensures |r| == 76 + |m.name| + |m.uri|
  {
    m.merchant + EncodeString(m.name) + EncodeString(m.uri) + EncodeU32(m.totalDeals) + m.collectionMint
  }

  function EncodeDeal(d: Deal): (r: seq<byte>)
    ensures |r| == 73 + |d.title| + |d.description| + |d.imageUri| + |d.metadataUri|
  {
    EncodeU64(d.dealId) + d.merchant + EncodeString(d.title) + EncodeString(d.description)
      + EncodeU8(d.discountPercent) + EncodeI64(d.expiry) + EncodeU32(d.totalSupply) + EncodeU32(d.minted)
      + EncodeString(d.imageUri) + EncodeString(d.metadataUri)
  }

  function EncodeReview(v: Review): (r: seq<byte>)
    ensures |r| == 77 + |v.comment|
  {
    v.user + v.deal + EncodeU8(v.rating) + EncodeString(v.comment) + EncodeI64(v.createdAt)
  }

  function EncodeRedeemLog(l: RedeemLog): (r: seq<byte>)
    ensures |r| == REDEEM_LOG_SPACE
  {
    l.tokenMint + l.user + EncodeI64(l.redeemedAt)
  }

  function EncodeListing(l: Listing): (r: seq<byte>)
    ensures |r| == LISTING_SPACE
  {
    l.seller + l.nftMint + EncodeU64(l.price) + EncodeI64(l.createdAt)
  }

  /** Reads a Merchant from the front of `s` (`deserialize_reader` on a cursor). */
  function ReadMerchant(s: seq<byte>): Option<(Merchant, seq<byte>)>
  {
    var (merchant, s1) :- ReadPubkey(s);
    var (name, s2) :- ReadString(s1);
    var (uri, s3) :- ReadString(s2);
    var (total, s4) :- ReadU32(s3);
    var (collection, s5) :- ReadPubkey(s4);
    Some((Merchant(merchant, name, uri, total, collection), s5))
  }

  function ReadDeal(s: seq<byte>): Option<(Deal, seq<byte>)>
  {
    var (id, s1) :- ReadU64(s);
    var (merchant, s2) :- ReadPubkey(s1);
    var (title, s3) :- ReadString(s2);
    var (description, s4) :- ReadString(s3);
    var (discount, s5) :- ReadU8(s4);
    var (expiry, s6) :- ReadI64(s5);
    var (supply, s7) :- ReadU32(s6);
    var (minted, s8) :- ReadU32(s7);
    var (image, s9) :- ReadString(s8);
    var (metadata, s10) :- ReadString(s9);
    Some((Deal(id, merchant, title, description, discount, expiry, supply, minted, image, metadata), s10))
  }

  function ReadReview(s: seq<byte>): Option<(Review, seq<byte>)>
  {
    var (user, s1) :- ReadPubkey(s);
    var (deal, s2) :- ReadPubkey(s1);
    var (rating, s3) :- ReadU8(s2);
    var (comment, s4) :- ReadString(s3);
    var (created, s5) :- ReadI64(s4);
    Some((Review(user, deal, rating, comment, created), s5))
  }

  function ReadRedeemLog(s: seq<byte>): Option<(RedeemLog, seq<byte>)>
  {
    var (mint, s1) :- ReadPubkey(s);
    var (user, s2) :- ReadPubkey(s1);
    var (at, s3) :- ReadI64(s2);
    Some((RedeemLog(mint, user, at), s3))
  }

  function ReadListing(s: seq<byte>): Option<(Listing, seq<byte>)>
  {
    var (seller, s1) :- ReadPubkey(s);
    var (mint, s2) :- ReadPubkey(s1);
    var (price, s3) :- ReadU64(s2);
    var (created, s4) :- ReadI64(s3);
    Some((Listing(seller, mint, price, created), s4))
  }

  /** `Listing::try_from_slice`: the record must use up every byte. */
  function DecodeListing(s: seq<byte>): (r: Option<Listing>)
    ensures r.Some? ==> |s| == LISTING_SPACE
  {
    var (l, rest) :- ReadListing(s);
    if rest == [] then
      ReadListingCanonical(s);
      Some(l)
    else None
  }

  // ---------------------------------------------------------------------------
  // Round trips: reading an encoded record gives it back and leaves what follows

  lemma ReadMerchantEncode(m: Merchant, rest: seq<byte>)
    ensures ReadMerchant(EncodeMerchant(m) + rest) == Some((m, rest))
  {
    var t4 := m.collectionMint + rest;
    var t3 := EncodeU32(m.totalDeals) + t4;
    var t2 := EncodeString(m.uri) + t3;
    var t1 := EncodeString(m.name) + t2;
    assert EncodeMerchant(m) + rest == m.merchant + t1;
    ReadPubkeyEncode(m.merchant, t1);
    ReadStringEncode(m.name, t2);
    ReadStringEncode(m.uri, t3);
    ReadU32Encode(m.totalDeals, t4);
    ReadPubkeyEncode(m.collectionMint, rest);
  }

  lemma ReadDealEncode(d: Deal, rest: seq<byte>)
    ensures ReadDeal(EncodeDeal(d) + rest) == Some((d, rest))
  {
    var t9 := EncodeString(d.metadataUri) + rest;
    var t8 := EncodeString(d.imageUri) + t9;
    var t7 := EncodeU32(d.minted) + t8;
    var t6 := EncodeU32(d.totalSupply) + t7;
    var t5 := EncodeI64(d.expiry) + t6;
    var t4 := EncodeU8(d.discountPercent) + t5;
    var t3 := EncodeString(d.description) + t4;
    var t2 := EncodeString(d.title) + t3;
    var t1 := d.merchant + t2;
    var s := EncodeDeal(d) + rest;
    assert s == EncodeU64(d.dealId) + t1;
    ReadU64Encode(d.dealId, t1);
    ReadPubkeyEncode(d.merchant, t2);
    ReadStringEncode(d.title, t3);
    ReadStringEncode(d.description, t4);
    ReadU8Encode(d.discountPercent, t5);
    ReadI64Encode(d.expiry, t6);
    ReadU32Encode(d.totalSupply, t7);
    ReadU32Encode(d.minted, t8);
    ReadStringEncode(d.imageUri, t9);
    ReadStringEncode(d.metadataUri, rest);
    ReadDealSteps(s, d, t1, t2, t3, t4, t5, t6, t7, t8, t9, rest);
  }

  /** ReadDeal unfolded one field at a time. */
  lemma ReadDealSteps(s: seq<byte>, d: Deal, t1: seq<byte>, t2: seq<byte>, t3: seq<byte>, t4: seq<byte>,
                      t5: seq<byte>, t6: seq<byte>, t7: seq<byte>, t8: seq<byte>, t9: seq<byte>, rest: seq<byte>)
    requires ReadU64(s) == Some((d.dealId, t1))
    requires ReadPubkey(t1) == Some((d.merchant, t2))
    requires ReadString(t2) == Some((d.title, t3))
    requires ReadString(t3) == Some((d.description, t4))
    requires ReadU8(t4) == Some((d.discountPercent, t5))
    requires ReadI64(t5) == Some((d.expiry, t6))
    requires ReadU32(t6) == Some((d.totalSupply, t7))
    requires ReadU32(t7) == Some((d.minted, t8))
    requires ReadString(t8) == Some((d.imageUri, t9))
    requires ReadString(t9) == Some((d.metadataUri, rest))
    ensures ReadDeal(s) == Some((d, rest))
  {
  }

  lemma ReadReviewEncode(v: Review, rest: seq<byte>)
    ensures ReadReview(EncodeReview(v) + rest) == Some((v, rest))
  {
    var t4 := EncodeI64(v.createdAt) + rest;
    var t3 := EncodeString(v.comment) + t4;
    var t2 := EncodeU8(v.rating) + t3;
    var t1 := v.deal + t2;
    assert EncodeReview(v) + rest == v.user + t1;
    ReadPubkeyEncode(v.user, t1);
    ReadPubkeyEncode(v.deal, t2);
    ReadU8Encode(v.rating, t3);
    ReadStringEncode(v.comment, t4);
    ReadI64Encode(v.createdAt, rest);
  }

  lemma ReadRedeemLogEncode(l: RedeemLog, rest: seq<byte>)
    ensures ReadRedeemLog(EncodeRedeemLog(l) + rest) == Some((l, rest))
  {
    var t2 := EncodeI64(l.redeemedAt) + rest;
    var t1 := l.user + t2;
    assert EncodeRedeemLog(l) + rest == l.tokenMint + t1;
    ReadPubkeyEncode(l.tokenMint, t1);
    ReadPubkeyEncode(l.user, t2);
    ReadI64Encode(l.redeemedAt, rest);
  }

  lemma ReadListingEncode(l: Listing, rest: seq<byte>)
    ensures ReadListing(EncodeListing(l) + rest) == Some((l, rest))
  {
    var t3 := EncodeI64(l.createdAt) + rest;
    var t2 := EncodeU64(l.price) + t3;
    var t1 := l.nftMint + t2;
    assert EncodeListing(l) + rest == l.seller + t1;
    ReadPubkeyEncode(l.seller, t1);
    ReadPubkeyEncode(l.nftMint, t2);
    ReadU64Encode(l.price, t3);
    ReadI64Encode(l.createdAt, rest);
  }

  lemma DecodeListingEncode(l: Listing)
    ensures DecodeListing(EncodeListing(l)) == Some(l)
  {
    ReadListingEncode(l, []);
    assert EncodeListing(l) + [] == EncodeListing(l);
  }
  /**
   * An all-zero listing account, as a closed listing is left, still decodes:
   * as a listing whose seller and mint are the zero key, at price 0.
   */
  lemma DecodeZeroListing()
    ensures DecodeListing(ZeroBytes(LISTING_SPACE)) == Some(Listing(ZERO_KEY, ZERO_KEY, 0, 0))
  {
    var l := Listing(ZERO_KEY, ZERO_KEY, 0, 0);
    LeBytesZero(8);
    assert EncodeListing(l) == ZeroBytes(32) + ZeroBytes(32) + ZeroBytes(8) + ZeroBytes(8);
    assert EncodeListing(l) == ZeroBytes(LISTING_SPACE);
    DecodeListingEncode(l);
  }


  // The other direction: the bytes a reader consumed are exactly the encoding
  // of the record it returned, so there is one byte form per record.

  /** ReadMerchant unfolded one field at a time. */
  lemma ReadMerchantSteps(s: seq<byte>, m: Merchant, t1: seq<byte>, t2: seq<byte>, t3: seq<byte>,
                          t4: seq<byte>, rest: seq<byte>)
    requires ReadPubkey(s) == Some((m.merchant, t1))
    requires ReadString(t1) == Some((m.name, t2))
    requires ReadString(t2) == Some((m.uri, t3))
    requires ReadU32(t3) == Some((m.totalDeals, t4))
    requires ReadPubkey(t4) == Some((m.collectionMint, rest))
    ensures ReadMerchant(s) == Some((m, rest))
  {
  }

  lemma ReadMerchantCanonical(s: seq<byte>)
    requires ReadMerchant(s).Some?
    ensures s == EncodeMerchant(ReadMerchant(s).value.0) + ReadMerchant(s).value.1
  {
    assert ReadPubkey(s).Some?;
    var (k, s1) := ReadPubkey(s).value;
    assert ReadString(s1).Some?;
    var (name, s2) := ReadString(s1).value;
    assert ReadString(s2).Some?;
    var (uri, s3) := ReadString(s2).value;
    assert ReadU32(s3).Some?;
    var (total, s4) := ReadU32(s3).value;
    assert ReadPubkey(s4).Some?;
    var (cm, rest) := ReadPubkey(s4).value;
    var m := Merchant(k, name, uri, total, cm);
    ReadMerchantSteps(s, m, s1, s2, s3, s4, rest);
    MerchantBytes(s, m, s1, s2, s3, s4, rest);
  }

  lemma MerchantBytes(s: seq<byte>, m: Merchant, s1: seq<byte>, s2: seq<byte>, s3: seq<byte>,
                      s4: seq<byte>, rest: seq<byte>)
    requires s == m.merchant + s1
    requires ReadString(s1) == Some((m.name, s2))
    requires ReadString(s2) == Some((m.uri, s3))
    requires ReadU32(s3) == Some((m.totalDeals, s4))
    requires s4 == m.collectionMint + rest
    ensures s == EncodeMerchant(m) + rest
  {
    ReadStringCanonical(s1);
    ReadStringCanonical(s2);
    ReadU32Canonical(s3);
    var e2 := EncodeString(m.name);
    var e3 := EncodeString(m.uri);
    var e4 := EncodeU32(m.totalDeals);
    assert s == m.merchant + (e2 + (e3 + (e4 + (m.collectionMint + rest))));
    assert EncodeMerchant(m) == m.merchant + e2 + e3 + e4 + m.collectionMint;
    SeqAssoc5(m.merchant, e2, e3, e4, m.collectionMint, rest);
  }

  lemma ReadDealCanonical(s: seq<byte>)
    requires ReadDeal(s).Some?
    ensures s == EncodeDeal(ReadDeal(s).value.0) + ReadDeal(s).value.1
  {
    assert ReadU64(s).Some?;
    var (id, s1) := ReadU64(s).value;
    assert ReadPubkey(s1).Some?;
    var (k, s2) := ReadPubkey(s1).value;
    assert ReadString(s2).Some?;
    var (title, s3) := ReadString(s2).value;
    assert ReadString(s3).Some?;
    var (desc, s4) := ReadString(s3).value;
    assert ReadU8(s4).Some?;
    var (discount, s5) := ReadU8(s4).value;
    assert ReadI64(s5).Some?;
    var (expiry, s6) := ReadI64(s5).value;
    assert ReadU32(s6).Some?;
    var (supply, s7) := ReadU32(s6).value;
    assert ReadU32(s7).Some?;
    var (minted, s8) := ReadU32(s7).value;
    assert ReadString(s8).Some?;
    var (image, s9) := ReadString(s8).value;
    assert ReadString(s9).Some?;
    var (meta, rest) := ReadString(s9).value;
    var d := Deal(id, k, title, desc, discount, expiry, supply, minted, image, meta);
    ReadDealSteps(s, d, s1, s2, s3, s4, s5, s6, s7, s8, s9, rest);
    ReadU64Canonical(s);
    ReadStringCanonical(s2);
    ReadStringCanonical(s3);
    ReadI64Canonical(s5);
    ReadU32Canonical(s6);
    ReadU32Canonical(s7);
    ReadStringCanonical(s8);
    ReadStringCanonical(s9);
    var e1 := EncodeU64(id);
    var e3 := EncodeString(title);
    var e4 := EncodeString(desc);
    var e5 := EncodeU8(discount);
    var e6 := EncodeI64(expiry);
    var e7 := EncodeU32(supply);
    var e8 := EncodeU32(minted);
    var e9 := EncodeString(image);
    var e10 := EncodeString(meta);
    assert s == e1 + (k + (e3 + (e4 + (e5 + (e6 + (e7 + (e8 + (e9 + (e10 + rest)))))))));
    assert EncodeDeal(d) == e1 + k + e3 + e4 + e5 + e6 + e7 + e8 + e9 + e10;
    SeqAssoc10(e1, k, e3, e4, e5, e6, e7, e8, e9, e10, rest);
  }

  lemma SeqAssoc5(e1: seq<byte>, e2: seq<byte>, e3: seq<byte>, e4: seq<byte>, e5: seq<byte>, rest: seq<byte>)
    ensures e1 + (e2 + (e3 + (e4 + (e5 + rest)))) == e1 + e2 + e3 + e4 + e5 + rest
  {
  }

  lemma SeqAssoc10(e1: seq<byte>, e2: seq<byte>, e3: seq<byte>, e4: seq<byte>, e5: seq<byte>,
                   e6: seq<byte>, e7: seq<byte>, e8: seq<byte>, e9: seq<byte>, e10: seq<byte>, rest: seq<byte>)
    ensures e1 + (e2 + (e3 + (e4 + (e5 + (e6 + (e7 + (e8 + (e9 + (e10 + rest)))))))))
         == e1 + e2 + e3 + e4 + e5 + e6 + e7 + e8 + e9 + e10 + rest
  {
  }

  lemma ReadReviewCanonical(s: seq<byte>)
    requires ReadReview(s).Some?
    ensures s == EncodeReview(ReadReview(s).value.0) + ReadReview(s).value.1
  {
    assert ReadPubkey(s).Some?;
    var (user, s1) := ReadPubkey(s).value;
    assert ReadPubkey(s1).Some?;
    var (deal, s2) := ReadPubkey(s1).value;
    assert ReadU8(s2).Some?;
    var (rating, s3) := ReadU8(s2).value;
    assert ReadString(s3).Some?;
    var (comment, s4) := ReadString(s3).value;
    assert ReadI64(s4).Some?;
    var (created, rest) := ReadI64(s4).value;
    var v := Review(user, deal, rating, comment, created);
    assert ReadReview(s) == Some((v, rest));
    ReviewBytes(s, v, s1, s2, s3, s4, rest);
  }

  lemma ReviewBytes(s: seq<byte>, v: Review, s1: seq<byte>, s2: seq<byte>, s3: seq<byte>,
                    s4: seq<byte>, rest: seq<byte>)
    requires s == v.user + s1
    requires s1 == v.deal + s2
    requires s2 == [v.rating] + s3
    requires ReadString(s3) == Some((v.comment, s4))
    requires ReadI64(s4) == Some((v.createdAt, rest))
    ensures s == EncodeReview(v) + rest
  {
    ReadStringCanonical(s3);
    ReadI64Canonical(s4);
    var e4 := EncodeString(v.comment);
    var e5 := EncodeI64(v.createdAt);
    assert s == v.user + (v.deal + (EncodeU8(v.rating) + (e4 + (e5 + rest))));
    assert EncodeReview(v) == v.user + v.deal + EncodeU8(v.rating) + e4 + e5;
    SeqAssoc5(v.user, v.deal, EncodeU8(v.rating), e4, e5, rest);
  }

  lemma ReadRedeemLogCanonical(s: seq<byte>)
    requires ReadRedeemLog(s).Some?
    ensures s == EncodeRedeemLog(ReadRedeemLog(s).value.0) + ReadRedeemLog(s).value.1
  {
    var s1 := s[32..];
    var s2 := s1[32..];
    assert s == s[..32] + s1;
    assert s1 == s1[..32] + s2;
    ReadI64Canonical(s2);
  }

  lemma ReadListingCanonical(s: seq<byte>)
    requires ReadListing(s).Some?
    ensures s == EncodeListing(ReadListing(s).value.0) + ReadListing(s).value.1
  {
    var s1 := s[32..];
    var s2 := s1[32..];
    var s3 := s2[8..];
    assert s == s[..32] + s1;
    assert s1 == s1[..32] + s2;
    ReadU64Canonical(s2);
    ReadI64Canonical(s3);
  }

  // ---------------------------------------------------------------------------
  // Sizes against the allocations

  /**
   * A Merchant with name and uri at their limits encodes to 32 bytes more than
   * the allocation (the collection_mint it has no room for); it fits exactly
   * when name and uri together take at most 232 bytes.
   */
  lemma MerchantSize(m: Merchant)
    ensures |EncodeMerchant(m)| == MERCHANT_SPACE + 32 - (MAX_NAME_LEN - |m.name|) - (MAX_URI_LEN - |m.uri|)
    ensures |EncodeMerchant(m)| <= MERCHANT_SPACE <==> |m.name| + |m.uri| <= MERCHANT_SPACE - 76
    ensures |m.name| <= MAX_NAME_LEN && |m.uri| <= MAX_URI_LEN ==> |EncodeMerchant(m)| - 32 <= MERCHANT_SPACE
  {
  }

  /** A Deal fits its allocation exactly when its four strings take at most 584 bytes. */
  lemma DealSize(d: Deal)
    ensures |EncodeDeal(d)| <= DEAL_SPACE <==> |d.title| + |d.description| + |d.imageUri| + |d.metadataUri| <= DEAL_SPACE - 73
    ensures |d.title| <= MAX_TITLE_LEN && |d.description| <= MAX_DESC_LEN ==>
      |EncodeDeal(d)| - 8 - |d.imageUri| - |d.metadataUri| <= DEAL_SPACE
  {
  }

  lemma ReviewSize(v: Review)
    ensures |EncodeReview(v)| <= REVIEW_SPACE <==> |v.comment| <= MAX_COMMENT_LEN
  {
  }
}
