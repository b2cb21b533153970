/**
 * What the handlers guarantee: the order of their checks, what a successful
 * call stores, that each program account is created at most once, that a
 * deal never counts more mints than its supply, and how closing a listing
 * moves lamports.
 */
module Properties {
  import opened Borsh
  import opened State
  import opened Errors
  import Instruction
  import opened Runtime
  import opened Handlers

  // ---------------------------------------------------------------------------
  // Reading back what a handler wrote

  /**
   * Writing a record's encoding over a buffer that held an encoding of the same
   * length leaves whatever followed the old record in place.
   */
  lemma OverwriteSameLength(buf: seq<byte>, old_: seq<byte>, rest: seq<byte>, bytes: seq<byte>)
    requires buf == old_ + rest && |bytes| == |old_|
    ensures Overwrite(buf, bytes) == bytes + rest
  {
    assert buf[|bytes|..] == rest;
  }

  /** The merchant record at `k` in `c`, with the bytes after it, re-read after rewriting it as `m2`. */
  lemma RewriteMerchant(c: Chain, k: Pubkey, m2: Merchant)
    requires ReadMerchant(Get(c, k).data).Some?
    requires |m2.name| == |ReadMerchant(Get(c, k).data).value.0.name|
    requires |m2.uri| == |ReadMerchant(Get(c, k).data).value.0.uri|
    ensures var data := Get(c, k).data;
      Overwrite(data, EncodeMerchant(m2)) == EncodeMerchant(m2) + ReadMerchant(data).value.1
      && ReadMerchant(Overwrite(data, EncodeMerchant(m2))) == Some((m2, ReadMerchant(data).value.1))
  {
    var data := Get(c, k).data;
    var (m, rest) := ReadMerchant(data).value;
    ReadMerchantCanonical(data);
    OverwriteSameLength(data, EncodeMerchant(m), rest, EncodeMerchant(m2));
    ReadMerchantEncode(m2, rest);
  }

  /** The same for a deal record. */
  lemma RewriteDeal(c: Chain, k: Pubkey, d2: Deal)
    requires ReadDeal(Get(c, k).data).Some?
    requires var d := ReadDeal(Get(c, k).data).value.0;
      |d2.title| == |d.title| && |d2.description| == |d.description|
      && |d2.imageUri| == |d.imageUri| && |d2.metadataUri| == |d.metadataUri|
    ensures var data := Get(c, k).data;
      |EncodeDeal(d2)| <= |data|
      && Overwrite(data, EncodeDeal(d2)) == EncodeDeal(d2) + ReadDeal(data).value.1
      && ReadDeal(Overwrite(data, EncodeDeal(d2))) == Some((d2, ReadDeal(data).value.1))
  {
    var data := Get(c, k).data;
    var (d, rest) := ReadDeal(data).value;
    ReadDealCanonical(data);
    OverwriteSameLength(data, EncodeDeal(d), rest, EncodeDeal(d2));
    ReadDealEncode(d2, rest);
  }

  /** A record written into a freshly created, zero-filled account reads back whole. */
  lemma FreshRecord(bytes: seq<byte>, space: nat)
    requires |bytes| <= space
    ensures Overwrite(ZeroBytes(space), bytes) == bytes + ZeroBytes(space - |bytes|)
  {
    assert ZeroBytes(space)[|bytes|..] == ZeroBytes(space - |bytes|);
  }

  // ---------------------------------------------------------------------------
  // RegisterMerchant

  /**
   * The string limits are checked before anything else; then come the signer,
   * the PDA and the already-initialised checks, each with its own error.
   */
  lemma RegisterMerchantChecks(env: Env, c: Chain, metas: seq<AccountMeta>, name: Text, uri: Text)
    ensures |name| > MAX_NAME_LEN || |uri| > MAX_URI_LEN ==>
      RegisterMerchant(env, c, metas, name, uri) == Fail(Custom(7))
    ensures |name| <= MAX_NAME_LEN && |uri| <= MAX_URI_LEN && |metas| < 3 ==>
      RegisterMerchant(env, c, metas, name, uri) == Fail(NotEnoughAccountKeys)
    ensures |name| <= MAX_NAME_LEN && |uri| <= MAX_URI_LEN && |metas| >= 3 ==>
      (!metas[0].isSigner ==> RegisterMerchant(env, c, metas, name, uri) == Fail(Custom(4)))
      && (metas[0].isSigner && Pda(env, MerchantSeeds(metas[0].key)) != metas[1].key ==>
            RegisterMerchant(env, c, metas, name, uri) == Fail(Custom(1)))
      && (metas[0].isSigner && Pda(env, MerchantSeeds(metas[0].key)) == metas[1].key
          && |Get(c, metas[1].key).data| > 0 ==>
            RegisterMerchant(env, c, metas, name, uri) == Fail(Custom(2)))
  {
  }

  /**
   * A successful registration found the signer's merchant PDA empty, funded it
   * with the rent for 308 bytes, and stored a merchant owned by the signer
   * with no deals and no collection mint.
   */
  lemma RegisterMerchantStores(env: Env, c: Chain, metas: seq<AccountMeta>, name: Text, uri: Text)
    requires RegisterMerchant(env, c, metas, name, uri).Ok?
    ensures |metas| >= 3 && metas[0].isSigner
    ensures var k := metas[1].key;
      k == Pda(env, MerchantSeeds(metas[0].key)) && Get(c, k) == Account(0, [])
    ensures var k, c' := metas[1].key, RegisterMerchant(env, c, metas, name, uri).value;
      Get(c', k).lamports == env.rent(MERCHANT_SPACE) && |Get(c', k).data| == MERCHANT_SPACE
      && ReadMerchant(Get(c', k).data).Some?
      && ReadMerchant(Get(c', k).data).value.0 == Merchant(metas[0].key, name, uri, 0, ZERO_KEY)
  {
    var payer, k := metas[0].key, metas[1].key;
    var c1 := CreateAccount(c, metas[2].key, payer, k, env.rent(MERCHANT_SPACE), MERCHANT_SPACE).value;
    var m := Merchant(payer, name, uri, 0, ZERO_KEY);
    FreshRecord(EncodeMerchant(m), MERCHANT_SPACE);
    ReadMerchantEncode(m, ZeroBytes(MERCHANT_SPACE - |EncodeMerchant(m)|));
  }

  /**
   * Create-once: while the signer's merchant PDA holds data, every further
   * RegisterMerchant from that signer fails, whatever else it passes.
   */
  lemma RegisterMerchantOnce(env: Env, c: Chain, metas: seq<AccountMeta>, name: Text, uri: Text)
    requires |metas| >= 1 && |Get(c, Pda(env, MerchantSeeds(metas[0].key))).data| > 0
    ensures RegisterMerchant(env, c, metas, name, uri).Fail?
  {
  }

  /** Hence a second registration after a successful one fails. */
  lemma RegisterTwiceFails(env: Env, c: Chain, metas: seq<AccountMeta>, name: Text, uri: Text,
                           metas2: seq<AccountMeta>, name2: Text, uri2: Text)
    requires RegisterMerchant(env, c, metas, name, uri).Ok?
    requires |metas2| >= 1 && metas2[0].key == metas[0].key
    ensures RegisterMerchant(env, RegisterMerchant(env, c, metas, name, uri).value, metas2, name2, uri2).Fail?
  {
    RegisterMerchantStores(env, c, metas, name, uri);
    RegisterMerchantOnce(env, RegisterMerchant(env, c, metas, name, uri).value, metas2, name2, uri2);
  }

  // ---------------------------------------------------------------------------
  // SetCollectionMint

  /**
   * SetCollectionMint only works on the signer's own merchant PDA, and it
   * changes nothing but the record's collection mint: every other field, the
   * bytes after the record, the account's lamports and every other account
   * stay as they were.
   */
  lemma SetCollectionMintOnlyChangesMint(env: Env, c: Chain, metas: seq<AccountMeta>, cm: Pubkey)
    requires SetCollectionMint(env, c, metas, cm).Ok?
    ensures |metas| >= 2 && metas[0].isSigner && metas[1].key == Pda(env, MerchantSeeds(metas[0].key))
    ensures var k, c' := metas[1].key, SetCollectionMint(env, c, metas, cm).value;
      ReadMerchant(Get(c, k).data).Some? && ReadMerchant(Get(c', k).data).Some?
      && ReadMerchant(Get(c', k).data).value.0 == ReadMerchant(Get(c, k).data).value.0.(collectionMint := cm)
      && ReadMerchant(Get(c', k).data).value.1 == ReadMerchant(Get(c, k).data).value.1
      && Get(c', k).lamports == Get(c, k).lamports
      && (forall k' :: k' != k ==> Get(c', k') == Get(c, k'))
      && c'.tokens == c.tokens
  {
    var k := metas[1].key;
    var m := ReadMerchant(Get(c, k).data).value.0;
    RewriteMerchant(c, k, m.(collectionMint := cm));
  }

  // ---------------------------------------------------------------------------
  // CreateDeal

  /** The new total_deals: one more, or unchanged once the count is at `u32::MAX`. */
  function NextTotal(total: u32): (r: u32)
    ensures total < U32_LIMIT - 1 ==> r == total + 1
    ensures total == U32_LIMIT - 1 ==> r == total
  {
    if total + 1 < U32_LIMIT then total + 1 else total
  }

  /**
   * A successful CreateDeal found the signer's merchant record non-empty and
   * the deal PDA for (signer, deal id) empty, and stores there a deal owned
   * by the signer with nothing minted.  If the merchant account decodes, its
   * deal count goes up by one (or stays at `u32::MAX`) and nothing else in the
   * record or after it changes; the ignored write never cuts it short.
   */
  lemma CreateDealStores(env: Env, c: Chain, metas: seq<AccountMeta>, a: DealArgs)
    requires CreateDeal(env, c, metas, a).Ok?
    ensures |metas| >= 4 && metas[0].isSigner
    ensures var payer, mk, dk := metas[0].key, metas[1].key, metas[2].key;
      mk == Pda(env, MerchantSeeds(payer)) && |Get(c, mk).data| > 0
      && dk == Pda(env, DealSeeds(payer, a.dealId)) && Get(c, dk) == Account(0, [])
    ensures var dk, c' := metas[2].key, CreateDeal(env, c, metas, a).value;
      Get(c', dk).lamports == env.rent(DEAL_SPACE) && |Get(c', dk).data| == DEAL_SPACE
      && ReadDeal(Get(c', dk).data).Some? && ReadDeal(Get(c', dk).data).value.0 == NewDeal(metas[0].key, a)
    ensures var mk, c' := metas[1].key, CreateDeal(env, c, metas, a).value;
      var before := ReadMerchant(Get(c, mk).data);
      (before.None? ==> Get(c', mk) == Get(c, mk))
      && (before.Some? ==>
            var m := before.value.0;
            ReadMerchant(Get(c', mk).data) == Some((m.(totalDeals := NextTotal(m.totalDeals)), before.value.1))
            && Get(c', mk).lamports == Get(c, mk).lamports)
  {
    var payer, mk, dk, system := metas[0].key, metas[1].key, metas[2].key, metas[3].key;
    var c1 := CreateAccount(c, system, payer, dk, env.rent(DEAL_SPACE), DEAL_SPACE).value;
    var d := NewDeal(payer, a);
    var c2 := Serialize(c1, dk, EncodeDeal(d)).value;
    // the merchant account holds data and the deal account none, so they differ,
    // and the payer (who may hold no data to pay) is neither
    assert mk != dk && payer != mk;
    assert Get(c2, mk) == Get(c, mk);
    FreshRecord(EncodeDeal(d), DEAL_SPACE);
    ReadDealEncode(d, ZeroBytes(DEAL_SPACE - |EncodeDeal(d)|));
    assert Get(c2, dk).data == EncodeDeal(d) + ZeroBytes(DEAL_SPACE - |EncodeDeal(d)|);
    if ReadMerchant(Get(c, mk).data).Some? {
      var m := ReadMerchant(Get(c, mk).data).value.0;
      RewriteMerchant(c2, mk, m.(totalDeals := NextTotal(m.totalDeals)));
    }
  }

  /**
   * Create-once: while the deal PDA for (signer, deal id) holds data, every
   * CreateDeal from that signer for that id fails.
   */
  lemma CreateDealOnce(env: Env, c: Chain, metas: seq<AccountMeta>, a: DealArgs)
    requires |metas| >= 1 && |Get(c, Pda(env, DealSeeds(metas[0].key, a.dealId))).data| > 0
    ensures CreateDeal(env, c, metas, a).Fail?
  {
  }

  /**
   * CreateDeal's account checks, once the strings are within their limits and
   * the signer and merchant PDA are right: an empty merchant record is
   * Unauthorized, a wrong deal PDA is a PDA mismatch, and a deal PDA that
   * already holds data is AlreadyInitialized.
   */
  lemma CreateDealRejects(env: Env, c: Chain, metas: seq<AccountMeta>, a: DealArgs)
    requires |a.title| <= MAX_TITLE_LEN && |a.description| <= MAX_DESC_LEN
    requires |a.imageUri| <= MAX_URI_LEN && |a.metadataUri| <= MAX_URI_LEN
    requires |metas| >= 4 && metas[0].isSigner && metas[1].key == Pda(env, MerchantSeeds(metas[0].key))
    ensures |Get(c, metas[1].key).data| == 0 ==> CreateDeal(env, c, metas, a) == Fail(Custom(4))
    ensures |Get(c, metas[1].key).data| > 0 && metas[2].key != Pda(env, DealSeeds(metas[0].key, a.dealId))
      ==> CreateDeal(env, c, metas, a) == Fail(Custom(1))
    ensures |Get(c, metas[1].key).data| > 0 && metas[2].key == Pda(env, DealSeeds(metas[0].key, a.dealId))
            && |Get(c, metas[2].key).data| > 0
      ==> CreateDeal(env, c, metas, a) == Fail(Custom(2))
  {
    assert Into(Unauthorized) == Custom(4);
    assert Into(PdaDerivationMismatch) == Custom(1);
    assert Into(AlreadyInitialized) == Custom(2);
  }

  // ---------------------------------------------------------------------------
  // Minting: MintCouponNft and VerifyAndCountMint

  /** The accounts of a mint reach the supply check: signer, both records readable, deal PDA right. */
  predicate MintReachesDeal(env: Env, c: Chain, metas: seq<AccountMeta>, dealId: u64)
  {
    |metas| >= 3 && metas[0].isSigner
    && UnpackMerchant(c, metas[1].key).Ok?
    && Pda(env, DealSeeds(UnpackMerchant(c, metas[1].key).value.merchant, dealId)) == metas[2].key
    && UnpackDeal(c, metas[2].key).Ok?
  }

  /** The deal a mint that reaches the supply check works on. */
  function DealAt(c: Chain, metas: seq<AccountMeta>): Deal
    requires |metas| >= 3 && UnpackDeal(c, metas[2].key).Ok?
  {
    UnpackDeal(c, metas[2].key).value
  }

  /**
   * Writing a deal whose strings keep their lengths over a stored deal: the
   * write fits, the account then reads back as the new deal followed by the
   * old trailing bytes, and nothing else changes.
   */
  lemma SerializeDealStores(c: Chain, k: Pubkey, d2: Deal)
    requires ReadDeal(Get(c, k).data).Some?
    requires var d := ReadDeal(Get(c, k).data).value.0;
      |d2.title| == |d.title| && |d2.description| == |d.description|
      && |d2.imageUri| == |d.imageUri| && |d2.metadataUri| == |d.metadataUri|
    ensures var r := Serialize(c, k, EncodeDeal(d2));
      r.Ok?
      && ReadDeal(Get(r.value, k).data) == Some((d2, ReadDeal(Get(c, k).data).value.1))
      && Get(r.value, k).lamports == Get(c, k).lamports
      && (forall k' :: k' != k ==> Get(r.value, k') == Get(c, k'))
      && r.value.tokens == c.tokens
  {
    RewriteDeal(c, k, d2);
    var r := Serialize(c, k, EncodeDeal(d2));
    assert Get(r.value, k).data == Overwrite(Get(c, k).data, EncodeDeal(d2));
  }

  /** At `minted = u32::MAX` the increment overflows before the supply is looked at. */
  lemma MintCouponOverflows(env: Env, c: Chain, metas: seq<AccountMeta>, dealId: u64)
    requires MintReachesDeal(env, c, metas, dealId)
    requires UnpackDeal(c, metas[2].key).value.minted + 1 >= U32_LIMIT
    ensures MintCoupon(env, c, metas, dealId) == Fail(Custom(3))
  {
    assert Into(Overflow) == Custom(3);
  }

  /** Below `u32::MAX`, an incremented count above the supply is DealSoldOut. */
  lemma MintCouponSoldOut(env: Env, c: Chain, metas: seq<AccountMeta>, dealId: u64)
    requires MintReachesDeal(env, c, metas, dealId)
    requires UnpackDeal(c, metas[2].key).value.minted + 1 < U32_LIMIT
    requires UnpackDeal(c, metas[2].key).value.minted + 1 > UnpackDeal(c, metas[2].key).value.totalSupply
    ensures MintCoupon(env, c, metas, dealId) == Fail(Custom(5))
  {
    assert Into(DealSoldOut) == Custom(5);
  }

  /**
   * MintCouponNft increments first and then compares with the supply: it
   * succeeds exactly when fewer than `total_supply` coupons were minted,
   * reports Overflow only at `minted = u32::MAX` and DealSoldOut otherwise.
   */
  lemma MintCouponOutcome(env: Env, c: Chain, metas: seq<AccountMeta>, dealId: u64)
    requires MintReachesDeal(env, c, metas, dealId)
    ensures var d, r := DealAt(c, metas), MintCoupon(env, c, metas, dealId);
      (r.Ok? <==> d.minted < d.totalSupply)
      && (d.minted == U32_LIMIT - 1 ==> r == Fail(Custom(3)))
      && (d.minted < U32_LIMIT - 1 && d.minted >= d.totalSupply ==> r == Fail(Custom(5)))
  {
    var d := DealAt(c, metas);
    var r := MintCoupon(env, c, metas, dealId);
    if d.minted + 1 >= U32_LIMIT {
      MintCouponOverflows(env, c, metas, dealId);
      assert d.totalSupply < U32_LIMIT && r.Fail?;
    } else if d.minted + 1 > d.totalSupply {
      MintCouponSoldOut(env, c, metas, dealId);
      assert r.Fail?;
    } else {
      SerializeDealStores(c, metas[2].key, d.(minted := d.minted + 1));
      assert r.Ok?;
    }
  }

  /**
   * Below the supply, MintCouponNft succeeds and stores the deal with
   * `minted + 1` and every other field, the bytes after it and every other
   * account unchanged.
   */
  lemma MintCouponStores(env: Env, c: Chain, metas: seq<AccountMeta>, dealId: u64)
    requires MintReachesDeal(env, c, metas, dealId)
    requires DealAt(c, metas).minted < DealAt(c, metas).totalSupply
    ensures var d, r, k := DealAt(c, metas), MintCoupon(env, c, metas, dealId), metas[2].key;
      r.Ok?
      && ReadDeal(Get(r.value, k).data) == Some((d.(minted := d.minted + 1), ReadDeal(Get(c, k).data).value.1))
      && Get(r.value, k).lamports == Get(c, k).lamports
      && (forall k' :: k' != k ==> Get(r.value, k') == Get(c, k'))
      && r.value.tokens == c.tokens
  {
    var d, k := DealAt(c, metas), metas[2].key;
    SerializeDealStores(c, k, d.(minted := d.minted + 1));
    assert UnpackDeal(c, k) == Ok(d);
    assert MintCoupon(env, c, metas, dealId) == Serialize(c, k, EncodeDeal(d.(minted := d.minted + 1)));
  }

  /**
   * VerifyAndCountMint compares with the supply first: DealSoldOut exactly when
   * `minted >= total_supply`; otherwise the stored deal has `minted + 1` and
   * nothing else changes.  The overflow check after it can never fire.
   */
  lemma VerifyAndCountMintOutcome(env: Env, c: Chain, metas: seq<AccountMeta>, dealId: u64)
    requires MintReachesDeal(env, c, metas, dealId)
    ensures var d, r := DealAt(c, metas), VerifyAndCountMint(env, c, metas, dealId);
      (r == Fail(Custom(5)) <==> d.minted >= d.totalSupply)
      && (r.Ok? <==> d.minted < d.totalSupply)
    ensures var d, r, k := DealAt(c, metas), VerifyAndCountMint(env, c, metas, dealId), metas[2].key;
      r.Ok? ==>
        ReadDeal(Get(r.value, k).data) == Some((d.(minted := d.minted + 1), ReadDeal(Get(c, k).data).value.1))
        && Get(r.value, k).lamports == Get(c, k).lamports
        && (forall k' :: k' != k ==> Get(r.value, k') == Get(c, k'))
        && r.value.tokens == c.tokens
  {
    var mk, k := metas[1].key, metas[2].key;
    var d := DealAt(c, metas);
    assert UnpackMerchant(c, mk).Ok?;
    assert UnpackDeal(c, k) == Ok(d);
    var r := VerifyAndCountMint(env, c, metas, dealId);
    if d.minted >= d.totalSupply {
      assert r == Fail(Into(DealSoldOut));
    } else {
      var next := d.(minted := d.minted + 1);
      RewriteDeal(c, k, next);
      assert r == Serialize(c, k, EncodeDeal(next));
    }
  }

  /** The two mint paths agree on every input: same success condition, same stored deal. */
  lemma MintPathsAgree(env: Env, c: Chain, metas: seq<AccountMeta>, dealId: u64)
    requires MintReachesDeal(env, c, metas, dealId)
    ensures MintCoupon(env, c, metas, dealId).Ok? <==> VerifyAndCountMint(env, c, metas, dealId).Ok?
    ensures MintCoupon(env, c, metas, dealId).Ok? ==>
      MintCoupon(env, c, metas, dealId) == VerifyAndCountMint(env, c, metas, dealId)
  {
    MintCouponOutcome(env, c, metas, dealId);
    VerifyAndCountMintOutcome(env, c, metas, dealId);
  }

  // ---------------------------------------------------------------------------
  // Redemption: RedeemCoupon and RedeemAndBurn

  /**
   * At most one redeem log per mint: while the redeem PDA of `mint` holds data,
   * both redeem instructions for that mint fail, whatever accounts they pass.
   */
  lemma RedeemOnce(env: Env, c: Chain, metas: seq<AccountMeta>, mint: Pubkey)
    requires |Get(c, Pda(env, RedeemSeeds(mint))).data| > 0
    ensures RedeemCoupon(env, c, metas, mint).Fail?
    ensures RedeemAndBurn(env, c, metas, mint).Fail?
  {
  }

  /** A signed RedeemCoupon naming the mint's redeem PDA, which already holds a log, is AlreadyRedeemed. */
  lemma RedeemCouponRejectsRedeemed(env: Env, c: Chain, metas: seq<AccountMeta>, mint: Pubkey)
    requires |metas| >= 3 && metas[0].isSigner && metas[1].key == Pda(env, RedeemSeeds(mint))
    requires |Get(c, metas[1].key).data| > 0
    ensures RedeemCoupon(env, c, metas, mint) == Fail(Custom(6))
  {
    assert Into(AlreadyRedeemed) == Custom(6);
  }

  /**
   * A RedeemAndBurn whose burn goes through but whose redeem PDA already holds
   * a log is AlreadyRedeemed (and `Apply` then undoes the burn).
   */
  lemma RedeemAndBurnRejectsRedeemed(env: Env, c: Chain, metas: seq<AccountMeta>, mint: Pubkey)
    requires |metas| >= 6 && metas[0].isSigner && metas[2].key == mint
    requires TokenBurn(env, c, metas[3].key, metas[1].key, mint, metas[0].key, 1).Ok?
    requires metas[4].key == Pda(env, RedeemSeeds(mint)) && |Get(c, metas[4].key).data| > 0
    ensures RedeemAndBurn(env, c, metas, mint) == Fail(Custom(6))
  {
    assert Into(AlreadyRedeemed) == Custom(6);
  }

  /** A successful RedeemCoupon logs (mint, signer, now) in the mint's empty redeem PDA. */
  lemma RedeemCouponLogs(env: Env, c: Chain, metas: seq<AccountMeta>, mint: Pubkey)
    requires RedeemCoupon(env, c, metas, mint).Ok?
    ensures |metas| >= 3 && metas[0].isSigner && metas[1].key == Pda(env, RedeemSeeds(mint))
    ensures Get(c, metas[1].key) == Account(0, [])
    ensures var k, c' := metas[1].key, RedeemCoupon(env, c, metas, mint).value;
      Get(c', k).lamports == env.rent(REDEEM_LOG_SPACE)
      && ReadRedeemLog(Get(c', k).data) == Some((RedeemLog(mint, metas[0].key, env.now), []))
      && c'.tokens == c.tokens
  {
    var log := RedeemLog(mint, metas[0].key, env.now);
    FreshRecord(EncodeRedeemLog(log), REDEEM_LOG_SPACE);
    ReadRedeemLogEncode(log, []);
    assert EncodeRedeemLog(log) + ZeroBytes(0) == EncodeRedeemLog(log) + [];
  }

  /**
   * RedeemAndBurn rejects a mint account other than the mint argument before
   * burning anything.
   */
  lemma RedeemAndBurnChecksMint(env: Env, c: Chain, metas: seq<AccountMeta>, mint: Pubkey)
    requires |metas| >= 6 && metas[0].isSigner && metas[2].key != mint
    ensures RedeemAndBurn(env, c, metas, mint) == Fail(Custom(7))
  {
  }

  /**
   * A successful RedeemAndBurn burned one token of `mint` from the signer's
   * token account and logged (mint, signer, now) in the mint's empty redeem PDA.
   */
  lemma RedeemAndBurnLogs(env: Env, c: Chain, metas: seq<AccountMeta>, mint: Pubkey)
    requires RedeemAndBurn(env, c, metas, mint).Ok?
    ensures |metas| >= 6 && metas[0].isSigner && metas[2].key == mint
    ensures metas[4].key == Pda(env, RedeemSeeds(mint)) && Get(c, metas[4].key) == Account(0, [])
    ensures var ut := metas[1].key;
      ut in c.tokens && c.tokens[ut].mint == mint && c.tokens[ut].owner == metas[0].key
      && c.tokens[ut].amount >= 1
    ensures var k, ut, c' := metas[4].key, metas[1].key, RedeemAndBurn(env, c, metas, mint).value;
      ReadRedeemLog(Get(c', k).data) == Some((RedeemLog(mint, metas[0].key, env.now), []))
      && c'.tokens == c.tokens[ut := c.tokens[ut].(amount := c.tokens[ut].amount - 1)]
  {
    var log := RedeemLog(mint, metas[0].key, env.now);
    FreshRecord(EncodeRedeemLog(log), REDEEM_LOG_SPACE);
    ReadRedeemLogEncode(log, []);
    assert EncodeRedeemLog(log) + ZeroBytes(0) == EncodeRedeemLog(log) + [];
  }

  // ---------------------------------------------------------------------------
  // AddReview

  /** A rating outside 1..5 or a comment over 280 bytes is invalid input, whatever the accounts. */
  lemma AddReviewChecksInput(env: Env, c: Chain, metas: seq<AccountMeta>, dealId: u64, rating: u8, comment: Text)
    requires rating == 0 || rating > 5 || |comment| > MAX_COMMENT_LEN
    ensures AddReview(env, c, metas, dealId, rating, comment) == Fail(Custom(7))
  {
  }

  /**
   * One review per (deal PDA, user): while the review PDA of the passed deal
   * and signer holds data, AddReview fails and so leaves that review alone.
   */
  lemma AddReviewOnce(env: Env, c: Chain, metas: seq<AccountMeta>, dealId: u64, rating: u8, comment: Text)
    requires |metas| >= 3 && |Get(c, Pda(env, ReviewSeeds(metas[2].key, metas[0].key))).data| > 0
    ensures AddReview(env, c, metas, dealId, rating, comment).Fail?
  {
  }

  /**
   * A valid review whose signer, merchant record, deal PDA and review PDA all
   * check out, but whose review PDA already holds data, is AlreadyInitialized.
   */
  lemma AddReviewRejectsDuplicate(env: Env, c: Chain, metas: seq<AccountMeta>, dealId: u64, rating: u8,
                                  comment: Text)
    requires 1 <= rating <= 5 && |comment| <= MAX_COMMENT_LEN
    requires |metas| >= 5 && metas[0].isSigner && UnpackMerchant(c, metas[1].key).Ok?
    requires metas[2].key == Pda(env, DealSeeds(UnpackMerchant(c, metas[1].key).value.merchant, dealId))
    requires metas[3].key == Pda(env, ReviewSeeds(metas[2].key, metas[0].key)) && |Get(c, metas[3].key).data| > 0
    ensures AddReview(env, c, metas, dealId, rating, comment) == Fail(Custom(2))
  {
    assert Into(AlreadyInitialized) == Custom(2);
  }

  /**
   * A successful review had a valid rating and comment and a signer, found the
   * review PDA of (deal PDA, signer) empty, and stores the signer, the deal
   * PDA, the rating, the comment and the clock's time there.
   */
  lemma AddReviewStores(env: Env, c: Chain, metas: seq<AccountMeta>, dealId: u64, rating: u8, comment: Text)
    requires AddReview(env, c, metas, dealId, rating, comment).Ok?
    ensures 1 <= rating <= 5 && |comment| <= MAX_COMMENT_LEN
    ensures |metas| >= 5 && metas[0].isSigner
    ensures var rk := metas[3].key;
      rk == Pda(env, ReviewSeeds(metas[2].key, metas[0].key)) && Get(c, rk) == Account(0, [])
    ensures var rk, c' := metas[3].key, AddReview(env, c, metas, dealId, rating, comment).value;
      Get(c', rk).lamports == env.rent(REVIEW_SPACE)
      && ReadReview(Get(c', rk).data).Some?
      && ReadReview(Get(c', rk).data).value.0 == Review(metas[0].key, metas[2].key, rating, comment, env.now)
  {
    var rv := Review(metas[0].key, metas[2].key, rating, comment, env.now);
    FreshRecord(EncodeReview(rv), REVIEW_SPACE);
    ReadReviewEncode(rv, ZeroBytes(REVIEW_SPACE - |EncodeReview(rv)|));
  }

  // ---------------------------------------------------------------------------
  // ListNft and BuyNft

  /**
   * ListNft's checks: a missing signature first, then a zero price, then a
   * listing account other than the (mint, seller) listing PDA.
   */
  lemma ListNftChecks(env: Env, c: Chain, metas: seq<AccountMeta>, price: u64)
    requires |metas| >= 7
    ensures !metas[0].isSigner ==> ListNft(env, c, metas, price) == Fail(MissingRequiredSignature)
    ensures metas[0].isSigner && price == 0 ==> ListNft(env, c, metas, price) == Fail(Custom(7))
    ensures metas[0].isSigner && price != 0 && Pda(env, ListingSeeds(metas[2].key, metas[0].key)) != metas[1].key
      ==> ListNft(env, c, metas, price) == Fail(InvalidAccountData)
  {
  }

  /**
   * A successful listing created the (mint, seller) listing PDA, moved one
   * token from the seller's token account into escrow and left every other
   * token account as it was, and stores exactly the seller, the mint, the
   * price and the clock's time.
   */
  lemma ListNftStores(env: Env, c: Chain, metas: seq<AccountMeta>, price: u64)
    requires ListNft(env, c, metas, price).Ok?
    ensures |metas| >= 7 && metas[0].isSigner && price > 0
    ensures metas[1].key == Pda(env, ListingSeeds(metas[2].key, metas[0].key)) && Get(c, metas[1].key) == Account(0, [])
    ensures var lk, st, et, c' := metas[1].key, metas[3].key, metas[4].key, ListNft(env, c, metas, price).value;
      Get(c', lk).lamports == env.rent(LISTING_SPACE)
      && DecodeListing(Get(c', lk).data) == Some(Listing(metas[0].key, metas[2].key, price, env.now))
      && st in c.tokens && et in c.tokens && c'.tokens.Keys == c.tokens.Keys
      && (st != et ==>
            c'.tokens[st] == c.tokens[st].(amount := c.tokens[st].amount - 1)
            && c'.tokens[et] == c.tokens[et].(amount := c.tokens[et].amount + 1))
      && (forall t :: t in c.tokens && t != st && t != et ==> c'.tokens[t] == c.tokens[t])
  {
    var l := Listing(metas[0].key, metas[2].key, price, env.now);
    FreshRecord(EncodeListing(l), LISTING_SPACE);
    DecodeListingEncode(l);
    assert EncodeListing(l) + ZeroBytes(0) == EncodeListing(l);
  }

  /** The accounts of a purchase reach the seller check: signer, listing PDA right, listing decodes. */
  predicate BuyReachesListing(env: Env, c: Chain, metas: seq<AccountMeta>)
  {
    |metas| >= 9 && metas[0].isSigner
    && Pda(env, ListingSeeds(metas[3].key, metas[1].key)) == metas[2].key
    && UnpackListing(c, metas[2].key).Ok?
  }

  /** BuyNft refuses to pay anyone but the seller the listing names. */
  lemma BuyNftChecksSeller(env: Env, c: Chain, metas: seq<AccountMeta>)
    requires BuyReachesListing(env, c, metas)
    requires UnpackListing(c, metas[2].key).value.seller != metas[1].key
    ensures BuyNft(env, c, metas) == Fail(Custom(4))
  {
  }

  /**
   * Closing a listing conserves lamports: what the seller and the listing
   * hold together is the same before and after, and the listing keeps none.
   */
  lemma CloseListingConserves(c: Chain, seller: Pubkey, listing: Pubkey)
    requires seller != listing && CloseListing(c, seller, listing).Ok?
    ensures var c' := CloseListing(c, seller, listing).value;
      Get(c', seller).lamports + Get(c', listing).lamports == Get(c, seller).lamports + Get(c, listing).lamports
      && Get(c', listing).lamports == 0
      && (forall i :: 0 <= i < |Get(c', listing).data| ==> Get(c', listing).data[i] == 0)
  {
  }

  /**
   * A successful purchase from a buyer, seller and listing that are three
   * different accounts: the buyer paid the listed price to the seller, the
   * seller also received the listing's lamports, the listing is left with no
   * lamports and 80 zero bytes, one token moved from escrow to the buyer,
   * and no other account or token account changed.
   */
  lemma BuyNftSettles(env: Env, c: Chain, metas: seq<AccountMeta>)
    requires BuyNft(env, c, metas).Ok?
    requires |metas| >= 9
    requires metas[0].key != metas[1].key && metas[0].key != metas[2].key && metas[1].key != metas[2].key
    ensures BuyReachesListing(env, c, metas)
    ensures var l, bk, sk, lk, c' := UnpackListing(c, metas[2].key).value, metas[0].key, metas[1].key, metas[2].key,
                                      BuyNft(env, c, metas).value;
      l.seller == sk
      && Get(c', bk).lamports == Get(c, bk).lamports - l.price
      && Get(c', sk).lamports == Get(c, sk).lamports + l.price + Get(c, lk).lamports
      && Get(c', lk) == Account(0, ZeroBytes(LISTING_SPACE))
      && (forall k :: k != bk && k != sk && k != lk ==> Get(c', k) == Get(c, k))
    ensures var et, bt, c' := metas[5].key, metas[6].key, BuyNft(env, c, metas).value;
      et in c.tokens && bt in c.tokens && c'.tokens.Keys == c.tokens.Keys
      && (et != bt ==>
            c'.tokens[et] == c.tokens[et].(amount := c.tokens[et].amount - 1)
            && c'.tokens[bt] == c.tokens[bt].(amount := c.tokens[bt].amount + 1))
      && (forall t :: t in c.tokens && t != et && t != bt ==> c'.tokens[t] == c.tokens[t])
  {
  }

  /**
   * A listing that was bought is all zeros, so it names the zero key as seller:
   * buying it again from any real seller fails.
   */
  lemma BuyNftOnce(env: Env, c: Chain, metas: seq<AccountMeta>, metas2: seq<AccountMeta>)
    requires BuyNft(env, c, metas).Ok?
    requires |metas2| >= 9 && metas2[2].key == metas[2].key && metas2[1].key != ZERO_KEY
    ensures BuyNft(env, BuyNft(env, c, metas).value, metas2).Fail?
  {
    DecodeZeroListing();
  }

  // ---------------------------------------------------------------------------
  // The entry point

  /** Instruction data that does not decode is InvalidInstruction, and the accounts stay as they were. */
  lemma ProcessRejectsMalformed(env: Env, c: Chain, metas: seq<AccountMeta>, data: seq<byte>)
    requires Instruction.Decode(data).None?
    ensures Process(env, c, metas, data) == Fail(Custom(0))
    ensures Apply(env, c, metas, data) == c
  {
  }

  /** An encoded instruction reaches its own handler. */
  lemma ProcessEncoded(env: Env, c: Chain, metas: seq<AccountMeta>, ix: Instruction.DealInstruction)
    ensures Process(env, c, metas, Instruction.Encode(ix)) == Dispatch(env, c, metas, ix)
  {
    Instruction.DecodeEncode(ix);
  }

  // ---------------------------------------------------------------------------
  // The supply invariant: no instruction makes a deal count more mints than its supply

  /** The account at `k`, if it holds a deal, has minted no more than its supply. */
  predicate WithinSupply(c: Chain, k: Pubkey)
  {
    ReadDeal(Get(c, k).data).Some? ==> ReadDeal(Get(c, k).data).value.0.minted <= ReadDeal(Get(c, k).data).value.0.totalSupply
  }

  /**
   * `k` can only be derived from a seed list that starts with the deal tag:
   * the part of PDA injectivity the invariant needs.
   */
  ghost predicate OnlyDealPda(env: Env, k: Pubkey)
  {
    forall seeds :: Pda(env, seeds) == k ==> |seeds| > 0 && seeds[0] == DEAL_SEED
  }

  lemma PdaNotDeal(env: Env, k: Pubkey, seeds: seq<seq<byte>>)
    requires OnlyDealPda(env, k) && |seeds| > 0 && seeds[0] != DEAL_SEED
    ensures Pda(env, seeds) != k
  {
  }

  lemma RegisterMerchantKeepsDeal(env: Env, c: Chain, metas: seq<AccountMeta>, name: Text, uri: Text, k: Pubkey)
    requires OnlyDealPda(env, k) && RegisterMerchant(env, c, metas, name, uri).Ok?
    ensures Get(RegisterMerchant(env, c, metas, name, uri).value, k).data == Get(c, k).data
  {
    SeedTagsDistinct();
    PdaNotDeal(env, k, MerchantSeeds(metas[0].key));
  }

  lemma SetCollectionMintKeepsDeal(env: Env, c: Chain, metas: seq<AccountMeta>, cm: Pubkey, k: Pubkey)
    requires OnlyDealPda(env, k) && SetCollectionMint(env, c, metas, cm).Ok?
    ensures Get(SetCollectionMint(env, c, metas, cm).value, k).data == Get(c, k).data
  {
    SeedTagsDistinct();
    PdaNotDeal(env, k, MerchantSeeds(metas[0].key));
  }

  lemma CreateDealKeepsSupply(env: Env, c: Chain, metas: seq<AccountMeta>, a: DealArgs, k: Pubkey)
    requires OnlyDealPda(env, k) && WithinSupply(c, k) && CreateDeal(env, c, metas, a).Ok?
    ensures WithinSupply(CreateDeal(env, c, metas, a).value, k)
  {
    SeedTagsDistinct();
    PdaNotDeal(env, k, MerchantSeeds(metas[0].key));
    if k == metas[2].key {
      CreateDealStores(env, c, metas, a);
    }
  }

  lemma MintCouponKeepsSupply(env: Env, c: Chain, metas: seq<AccountMeta>, dealId: u64, k: Pubkey)
    requires WithinSupply(c, k) && MintCoupon(env, c, metas, dealId).Ok?
    ensures WithinSupply(MintCoupon(env, c, metas, dealId).value, k)
  {
    assert MintReachesDeal(env, c, metas, dealId);
    MintCouponOutcome(env, c, metas, dealId);
    MintCouponStores(env, c, metas, dealId);
  }

  lemma VerifyAndCountMintKeepsSupply(env: Env, c: Chain, metas: seq<AccountMeta>, dealId: u64, k: Pubkey)
    requires WithinSupply(c, k) && VerifyAndCountMint(env, c, metas, dealId).Ok?
    ensures WithinSupply(VerifyAndCountMint(env, c, metas, dealId).value, k)
  {
    assert MintReachesDeal(env, c, metas, dealId);
    VerifyAndCountMintOutcome(env, c, metas, dealId);
  }

  lemma RedeemCouponKeepsDeal(env: Env, c: Chain, metas: seq<AccountMeta>, mint: Pubkey, k: Pubkey)
    requires OnlyDealPda(env, k) && RedeemCoupon(env, c, metas, mint).Ok?
    ensures Get(RedeemCoupon(env, c, metas, mint).value, k).data == Get(c, k).data
  {
    SeedTagsDistinct();
    PdaNotDeal(env, k, RedeemSeeds(mint));
  }

  lemma AddReviewKeepsDeal(env: Env, c: Chain, metas: seq<AccountMeta>, dealId: u64, rating: u8, comment: Text,
                           k: Pubkey)
    requires OnlyDealPda(env, k) && AddReview(env, c, metas, dealId, rating, comment).Ok?
    ensures Get(AddReview(env, c, metas, dealId, rating, comment).value, k).data == Get(c, k).data
  {
    SeedTagsDistinct();
    PdaNotDeal(env, k, ReviewSeeds(metas[2].key, metas[0].key));
  }

  lemma RedeemAndBurnKeepsDeal(env: Env, c: Chain, metas: seq<AccountMeta>, mint: Pubkey, k: Pubkey)
    requires OnlyDealPda(env, k) && RedeemAndBurn(env, c, metas, mint).Ok?
    ensures Get(RedeemAndBurn(env, c, metas, mint).value, k).data == Get(c, k).data
  {
    SeedTagsDistinct();
    PdaNotDeal(env, k, RedeemSeeds(mint));
  }

  lemma ListNftKeepsDeal(env: Env, c: Chain, metas: seq<AccountMeta>, price: u64, k: Pubkey)
    requires OnlyDealPda(env, k) && ListNft(env, c, metas, price).Ok?
    ensures Get(ListNft(env, c, metas, price).value, k).data == Get(c, k).data
  {
    SeedTagsDistinct();
    PdaNotDeal(env, k, ListingSeeds(metas[2].key, metas[0].key));
  }

  lemma BuyNftKeepsDeal(env: Env, c: Chain, metas: seq<AccountMeta>, k: Pubkey)
    requires OnlyDealPda(env, k) && BuyNft(env, c, metas).Ok?
    ensures Get(BuyNft(env, c, metas).value, k).data == Get(c, k).data
  {
    SeedTagsDistinct();
    PdaNotDeal(env, k, ListingSeeds(metas[3].key, metas[1].key));
  }

  /**
   * `minted <= total_supply` is an invariant of the program: if it holds for
   * the deal at `k` (any key only derivable as a deal PDA) before an
   * instruction, it holds after it, whatever the instruction and accounts.
   */
  lemma ProcessKeepsSupply(env: Env, c: Chain, metas: seq<AccountMeta>, data: seq<byte>, k: Pubkey)
    requires OnlyDealPda(env, k) && WithinSupply(c, k)
    ensures WithinSupply(Apply(env, c, metas, data), k)
  {
    if Process(env, c, metas, data).Ok? {
      DispatchKeepsSupply(env, c, metas, Instruction.Decode(data).value, k);
    }
  }

  lemma DispatchKeepsSupply(env: Env, c: Chain, metas: seq<AccountMeta>, ix: Instruction.DealInstruction, k: Pubkey)
    requires OnlyDealPda(env, k) && WithinSupply(c, k) && Dispatch(env, c, metas, ix).Ok?
    ensures WithinSupply(Dispatch(env, c, metas, ix).value, k)
  {
    match ix {
      case RegisterMerchant(name, uri) => RegisterMerchantKeepsDeal(env, c, metas, name, uri, k);
      case SetCollectionMint(cm) => SetCollectionMintKeepsDeal(env, c, metas, cm, k);
      case CreateDeal(id, title, desc, discount, expiry, supply, image, meta) =>
        CreateDealKeepsSupply(env, c, metas, DealArgs(id, title, desc, discount, expiry, supply, image, meta), k);
      case MintCouponNft(id) => MintCouponKeepsSupply(env, c, metas, id, k);
      case RedeemCoupon(mint) => RedeemCouponKeepsDeal(env, c, metas, mint, k);
      case AddReview(id, rating, comment) => AddReviewKeepsDeal(env, c, metas, id, rating, comment, k);
      case VerifyAndCountMint(id, _) => VerifyAndCountMintKeepsSupply(env, c, metas, id, k);
      case RedeemAndBurn(mint) => RedeemAndBurnKeepsDeal(env, c, metas, mint, k);
      case ListNft(price) => ListNftKeepsDeal(env, c, metas, price, k);
      case BuyNft => BuyNftKeepsDeal(env, c, metas, k);
    }
  }
}
