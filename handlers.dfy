/**
 * What each instruction handler does, as a function from the accounts it is
 * given to either the new account state or the error it stops with.  The
 * checks come in the handler's own order, so the error reported for an input
 * that breaks several rules is the one the program reports.  A failed
 * instruction changes nothing: `Apply` keeps the old state whenever `Process`
 * fails, however far the handler got (its CPIs included).
 */
module Handlers {
  import opened Borsh
  import opened State
  import opened Errors
  import opened Instruction
  import opened Runtime

  // ---------------------------------------------------------------------------
  // PDA seed lists, in the order the handlers pass them to find_program_address

  function MerchantSeeds(merchant: Pubkey): seq<seq<byte>> { [MERCHANT_SEED, merchant] }
  function DealSeeds(merchant: Pubkey, dealId: u64): seq<seq<byte>> { [DEAL_SEED, merchant, EncodeU64(dealId)] }
  function ReviewSeeds(deal: Pubkey, user: Pubkey): seq<seq<byte>> { [REVIEW_SEED, deal, user] }
  function RedeemSeeds(mint: Pubkey): seq<seq<byte>> { [REDEEM_SEED, mint] }
  function ListingSeeds(mint: Pubkey, seller: Pubkey): seq<seq<byte>> { [LISTING_SEED, mint, seller] }
  function EscrowSeeds(mint: Pubkey): seq<seq<byte>> { [ESCROW_SEED, mint] }

  function Pda(env: Env, seeds: seq<seq<byte>>): Pubkey
  {
    env.derive(seeds, env.programId)
  }

  // ---------------------------------------------------------------------------
  // Helpers

  /** `assert_len`: a string longer than `max` bytes is invalid input. */
  function AssertLen(s: Text, max: nat): (r: Res<()>)
    ensures r.Ok? <==> |s| <= max
    ensures r.Fail? ==> r.error == Into(InvalidInput)
  {
    if |s| > max then Fail(Into(InvalidInput)) else Ok(())
  }

  /** `read_unpacked::<Merchant>` on an account's data: a prefix decode, trailing bytes allowed. */
  function UnpackMerchant(c: Chain, k: Pubkey): (r: Res<Merchant>)
    ensures r.Ok? <==> ReadMerchant(Get(c, k).data).Some?
    ensures r.Ok? ==> r.value == ReadMerchant(Get(c, k).data).value.0
    ensures r.Fail? ==> r.error == Into(InvalidInput)
  {
    match ReadMerchant(Get(c, k).data)
    case None => Fail(Into(InvalidInput))
    case Some((m, _)) => Ok(m)
  }

  /** `read_unpacked::<Deal>` on an account's data. */
  function UnpackDeal(c: Chain, k: Pubkey): (r: Res<Deal>)
    ensures r.Ok? <==> ReadDeal(Get(c, k).data).Some?
    ensures r.Ok? ==> r.value == ReadDeal(Get(c, k).data).value.0
    ensures r.Fail? ==> r.error == Into(InvalidInput)
  {
    match ReadDeal(Get(c, k).data)
    case None => Fail(Into(InvalidInput))
    case Some((d, _)) => Ok(d)
  }

  /** `Listing::try_from_slice` on an account's data: every byte must be used. */
  function UnpackListing(c: Chain, k: Pubkey): (r: Res<Listing>)
    ensures r.Ok? <==> DecodeListing(Get(c, k).data).Some?
    ensures r.Ok? ==> r.value == DecodeListing(Get(c, k).data).value
    ensures r.Fail? ==> r.error == BorshIoError
  {
    match DecodeListing(Get(c, k).data)
    case None => Fail(BorshIoError)
    case Some(l) => Ok(l)
  }

  // ---------------------------------------------------------------------------
  // The handlers

  function RegisterMerchant(env: Env, c: Chain, metas: seq<AccountMeta>, name: Text, uri: Text): (r: Res<Chain>)
    ensures r.Ok? ==> |metas| >= 3 && metas[1].key == Pda(env, MerchantSeeds(metas[0].key))
    ensures r.Ok? ==> forall k :: k != metas[1].key ==> Get(r.value, k).data == Get(c, k).data
    ensures r.Ok? ==> r.value.tokens == c.tokens
  {
    var nameOk := AssertLen(name, MAX_NAME_LEN);
    if nameOk.Fail? then Fail(nameOk.error) else
    var uriOk := AssertLen(uri, MAX_URI_LEN);
    if uriOk.Fail? then Fail(uriOk.error) else
    if |metas| < 3 then Fail(NotEnoughAccountKeys) else
    var payer, merchantPda, system := metas[0], metas[1], metas[2];
    if !payer.isSigner then Fail(Into(Unauthorized)) else
    if Pda(env, MerchantSeeds(payer.key)) != merchantPda.key then Fail(Into(PdaDerivationMismatch)) else
    // `data_len() > 0 && !data_is_empty()`: the data is not empty
    if |Get(c, merchantPda.key).data| > 0 then Fail(Into(AlreadyInitialized)) else
    var created := CreateAccount(c, system.key, payer.key, merchantPda.key, env.rent(MERCHANT_SPACE), MERCHANT_SPACE);
    if created.Fail? then Fail(created.error) else
    Serialize(created.value, merchantPda.key, EncodeMerchant(Merchant(payer.key, name, uri, 0, ZERO_KEY)))
  }

  function SetCollectionMint(env: Env, c: Chain, metas: seq<AccountMeta>, collectionMint: Pubkey): (r: Res<Chain>)
    ensures r.Ok? ==> |metas| >= 2 && metas[1].key == Pda(env, MerchantSeeds(metas[0].key))
    ensures r.Ok? ==> forall k :: k != metas[1].key ==> Get(r.value, k) == Get(c, k)
    ensures r.Ok? ==> r.value.tokens == c.tokens
  {
    if |metas| < 2 then Fail(NotEnoughAccountKeys) else
    var payer, merchantPda := metas[0], metas[1];
    if !payer.isSigner then Fail(Into(Unauthorized)) else
    if Pda(env, MerchantSeeds(payer.key)) != merchantPda.key then Fail(Into(PdaDerivationMismatch)) else
    var merchant := UnpackMerchant(c, merchantPda.key);
    if merchant.Fail? then Fail(merchant.error) else
    Serialize(c, merchantPda.key, EncodeMerchant(merchant.value.(collectionMint := collectionMint)))
  }

  /** The fields of a CreateDeal instruction. */
  datatype DealArgs = DealArgs(
    dealId: u64, title: Text, description: Text, discountPercent: u8, expiry: i64,
    totalSupply: u32, imageUri: Text, metadataUri: Text)

  /** The deal a CreateDeal by `merchant` writes: nothing minted yet. */
  function NewDeal(merchant: Pubkey, a: DealArgs): Deal
  {
    Deal(a.dealId, merchant, a.title, a.description, a.discountPercent, a.expiry, a.totalSupply, 0,
         a.imageUri, a.metadataUri)
  }

  /**
   * The best-effort `total_deals` increment at the end of CreateDeal: if the
   * merchant account decodes, the count goes up by one unless it is already
   * `u32::MAX`, and the record is written back with any write error ignored.
   */
  function CountDeal(c: Chain, merchantKey: Pubkey): (r: Chain)
    ensures forall k :: k != merchantKey ==> Get(r, k) == Get(c, k)
    ensures r.tokens == c.tokens
    ensures Get(r, merchantKey).lamports == Get(c, merchantKey).lamports
    ensures |Get(r, merchantKey).data| == |Get(c, merchantKey).data|
    ensures ReadMerchant(Get(c, merchantKey).data).None? ==> r == c
  {
    match ReadMerchant(Get(c, merchantKey).data)
    case None => c
    case Some((m, _)) =>
      var next := if m.totalDeals + 1 < U32_LIMIT then m.(totalDeals := m.totalDeals + 1) else m;
      SetData(c, merchantKey, Overwrite(Get(c, merchantKey).data, EncodeMerchant(next)))
  }

  function CreateDeal(env: Env, c: Chain, metas: seq<AccountMeta>, a: DealArgs): (r: Res<Chain>)
    ensures r.Ok? ==> |metas| >= 4 && metas[1].key == Pda(env, MerchantSeeds(metas[0].key))
                      && metas[2].key == Pda(env, DealSeeds(metas[0].key, a.dealId))
    ensures r.Ok? ==> forall k :: k != metas[1].key && k != metas[2].key ==> Get(r.value, k).data == Get(c, k).data
    ensures r.Ok? ==> r.value.tokens == c.tokens
  {
    var titleOk := AssertLen(a.title, MAX_TITLE_LEN);
    if titleOk.Fail? then Fail(titleOk.error) else
    var descriptionOk := AssertLen(a.description, MAX_DESC_LEN);
    if descriptionOk.Fail? then Fail(descriptionOk.error) else
    var imageOk := AssertLen(a.imageUri, MAX_URI_LEN);
    if imageOk.Fail? then Fail(imageOk.error) else
    var metadataOk := AssertLen(a.metadataUri, MAX_URI_LEN);
    if metadataOk.Fail? then Fail(metadataOk.error) else
    if |metas| < 4 then Fail(NotEnoughAccountKeys) else
    var payer, merchantPda, dealPda, system := metas[0], metas[1], metas[2], metas[3];
    if !payer.isSigner then Fail(Into(Unauthorized)) else
    if Pda(env, MerchantSeeds(payer.key)) != merchantPda.key then Fail(Into(PdaDerivationMismatch)) else
    if |Get(c, merchantPda.key).data| == 0 then Fail(Into(Unauthorized)) else
    if Pda(env, DealSeeds(payer.key, a.dealId)) != dealPda.key then Fail(Into(PdaDerivationMismatch)) else
    if |Get(c, dealPda.key).data| > 0 then Fail(Into(AlreadyInitialized)) else
    var created := CreateAccount(c, system.key, payer.key, dealPda.key, env.rent(DEAL_SPACE), DEAL_SPACE);
    if created.Fail? then Fail(created.error) else
    var written := Serialize(created.value, dealPda.key, EncodeDeal(NewDeal(payer.key, a)));
    if written.Fail? then Fail(written.error) else
    Ok(CountDeal(written.value, merchantPda.key))
  }

  function MintCoupon(env: Env, c: Chain, metas: seq<AccountMeta>, dealId: u64): (r: Res<Chain>)
    ensures r.Ok? ==> |metas| >= 3 && forall k :: k != metas[2].key ==> Get(r.value, k) == Get(c, k)
    ensures r.Ok? ==> r.value.tokens == c.tokens
  {
    if |metas| < 3 then Fail(NotEnoughAccountKeys) else
    var user, merchantPda, dealPda := metas[0], metas[1], metas[2];
    if !user.isSigner then Fail(Into(Unauthorized)) else
    var merchant := UnpackMerchant(c, merchantPda.key);
    if merchant.Fail? then Fail(merchant.error) else
    if Pda(env, DealSeeds(merchant.value.merchant, dealId)) != dealPda.key then Fail(Into(PdaDerivationMismatch)) else
    var deal := UnpackDeal(c, dealPda.key);
    if deal.Fail? then Fail(deal.error) else
    var d := deal.value;
    // `minted.checked_add(1)`, then the supply check on the incremented count
    if d.minted + 1 >= U32_LIMIT then Fail(Into(Overflow)) else
    if d.minted + 1 > d.totalSupply then Fail(Into(DealSoldOut)) else
    Serialize(c, dealPda.key, EncodeDeal(d.(minted := d.minted + 1)))
  }

  function RedeemCoupon(env: Env, c: Chain, metas: seq<AccountMeta>, mint: Pubkey): (r: Res<Chain>)
    ensures r.Ok? ==> |metas| >= 3 && metas[1].key == Pda(env, RedeemSeeds(mint))
    ensures r.Ok? ==> forall k :: k != metas[1].key ==> Get(r.value, k).data == Get(c, k).data
    ensures r.Ok? ==> r.value.tokens == c.tokens
  {
    if |metas| < 3 then Fail(NotEnoughAccountKeys) else
    var user, redeemLog, system := metas[0], metas[1], metas[2];
    if !user.isSigner then Fail(Into(Unauthorized)) else
    if Pda(env, RedeemSeeds(mint)) != redeemLog.key then Fail(Into(PdaDerivationMismatch)) else
    if |Get(c, redeemLog.key).data| > 0 then Fail(Into(AlreadyRedeemed)) else
    var created := CreateAccount(c, system.key, user.key, redeemLog.key, env.rent(REDEEM_LOG_SPACE), REDEEM_LOG_SPACE);
    if created.Fail? then Fail(created.error) else
    Serialize(created.value, redeemLog.key, EncodeRedeemLog(RedeemLog(mint, user.key, env.now)))
  }

  function AddReview(env: Env, c: Chain, metas: seq<AccountMeta>, dealId: u64, rating: u8, comment: Text)
    : (r: Res<Chain>)
    ensures r.Ok? ==> |metas| >= 5 && metas[3].key == Pda(env, ReviewSeeds(metas[2].key, metas[0].key))
    ensures r.Ok? ==> forall k :: k != metas[3].key ==> Get(r.value, k).data == Get(c, k).data
    ensures r.Ok? ==> r.value.tokens == c.tokens
  {
    if rating == 0 || rating > 5 then Fail(Into(InvalidInput)) else
    if |comment| > MAX_COMMENT_LEN then Fail(Into(InvalidInput)) else
    if |metas| < 5 then Fail(NotEnoughAccountKeys) else
    var user, merchantPda, dealPda, reviewPda, system := metas[0], metas[1], metas[2], metas[3], metas[4];
    if !user.isSigner then Fail(Into(Unauthorized)) else
    var merchant := UnpackMerchant(c, merchantPda.key);
    if merchant.Fail? then Fail(merchant.error) else
    if Pda(env, DealSeeds(merchant.value.merchant, dealId)) != dealPda.key then Fail(Into(PdaDerivationMismatch)) else
    if Pda(env, ReviewSeeds(dealPda.key, user.key)) != reviewPda.key then Fail(Into(PdaDerivationMismatch)) else
    if |Get(c, reviewPda.key).data| > 0 then Fail(Into(AlreadyInitialized)) else
    var created := CreateAccount(c, system.key, user.key, reviewPda.key, env.rent(REVIEW_SPACE), REVIEW_SPACE);
    if created.Fail? then Fail(created.error) else
    Serialize(created.value, reviewPda.key, EncodeReview(Review(user.key, dealPda.key, rating, comment, env.now)))
  }

  function VerifyAndCountMint(env: Env, c: Chain, metas: seq<AccountMeta>, dealId: u64): (r: Res<Chain>)
    ensures r.Ok? ==> |metas| >= 3 && forall k :: k != metas[2].key ==> Get(r.value, k) == Get(c, k)
    ensures r.Ok? ==> r.value.tokens == c.tokens
  {
    if |metas| < 3 then Fail(NotEnoughAccountKeys) else
    var user, merchantPda, dealPda := metas[0], metas[1], metas[2];
    if !user.isSigner then Fail(Into(Unauthorized)) else
    var merchant := UnpackMerchant(c, merchantPda.key);
    if merchant.Fail? then Fail(merchant.error) else
    if Pda(env, DealSeeds(merchant.value.merchant, dealId)) != dealPda.key then Fail(Into(PdaDerivationMismatch)) else
    var deal := UnpackDeal(c, dealPda.key);
    if deal.Fail? then Fail(deal.error) else
    var d := deal.value;
    // the supply check first, then `minted.checked_add(1)`
    if d.minted >= d.totalSupply then Fail(Into(DealSoldOut)) else
    if d.minted + 1 >= U32_LIMIT then Fail(Into(Overflow)) else
    Serialize(c, dealPda.key, EncodeDeal(d.(minted := d.minted + 1)))
  }

  function RedeemAndBurn(env: Env, c: Chain, metas: seq<AccountMeta>, mint: Pubkey): (r: Res<Chain>)
    ensures r.Ok? ==> |metas| >= 6 && metas[4].key == Pda(env, RedeemSeeds(mint))
    ensures r.Ok? ==> forall k :: k != metas[4].key ==> Get(r.value, k).data == Get(c, k).data
  {
    if |metas| < 6 then Fail(NotEnoughAccountKeys) else
    var user, userToken, mintAccount, tokenProgram, redeemLog, system :=
      metas[0], metas[1], metas[2], metas[3], metas[4], metas[5];
    if !user.isSigner then Fail(Into(Unauthorized)) else
    if mintAccount.key != mint then Fail(Into(InvalidInput)) else
    // the burn happens before the redeem log is checked; a later failure undoes it
    var burned := TokenBurn(env, c, tokenProgram.key, userToken.key, mintAccount.key, user.key, 1);
    if burned.Fail? then Fail(burned.error) else
    var c1 := burned.value;
    if Pda(env, RedeemSeeds(mint)) != redeemLog.key then Fail(Into(PdaDerivationMismatch)) else
    if |Get(c1, redeemLog.key).data| > 0 then Fail(Into(AlreadyRedeemed)) else
    var created := CreateAccount(c1, system.key, user.key, redeemLog.key, env.rent(REDEEM_LOG_SPACE), REDEEM_LOG_SPACE);
    if created.Fail? then Fail(created.error) else
    Serialize(created.value, redeemLog.key, EncodeRedeemLog(RedeemLog(mint, user.key, env.now)))
  }

  function ListNft(env: Env, c: Chain, metas: seq<AccountMeta>, price: u64): (r: Res<Chain>)
    ensures r.Ok? ==> |metas| >= 7 && metas[1].key == Pda(env, ListingSeeds(metas[2].key, metas[0].key))
    ensures r.Ok? ==> forall k :: k != metas[1].key ==> Get(r.value, k).data == Get(c, k).data
  {
    if |metas| < 7 then Fail(NotEnoughAccountKeys) else
    var seller, listing, nftMint, sellerToken, escrowToken, tokenProgram, system :=
      metas[0], metas[1], metas[2], metas[3], metas[4], metas[5], metas[6];
    if !seller.isSigner then Fail(MissingRequiredSignature) else
    if price == 0 then Fail(Into(InvalidInput)) else
    if Pda(env, ListingSeeds(nftMint.key, seller.key)) != listing.key then Fail(InvalidAccountData) else
    var created := CreateAccount(c, system.key, seller.key, listing.key, env.rent(LISTING_SPACE), LISTING_SPACE);
    if created.Fail? then Fail(created.error) else
    var moved := TokenTransfer(env, created.value, tokenProgram.key, sellerToken.key, escrowToken.key, seller.key, 1);
    if moved.Fail? then Fail(moved.error) else
    Serialize(moved.value, listing.key, EncodeListing(Listing(seller.key, nftMint.key, price, env.now)))
  }

  /**
   * Closing the listing: the seller receives all of the listing's lamports
   * (a checked u64 add), the listing keeps none, and its data is zero-filled.
   */
  function CloseListing(c: Chain, seller: Pubkey, listing: Pubkey): (r: Res<Chain>)
    ensures r.Ok? <==> Get(c, seller).lamports + Get(c, listing).lamports < U64_LIMIT
    ensures r.Fail? ==> r.error == ArithmeticOverflow
    ensures r.Ok? ==> Get(r.value, listing) == Account(0, ZeroBytes(|Get(c, listing).data|))
    ensures r.Ok? && seller != listing ==>
      Get(r.value, seller) == Get(c, seller).(lamports := Get(c, seller).lamports + Get(c, listing).lamports)
    ensures r.Ok? ==> forall k :: k != seller && k != listing ==> Get(r.value, k) == Get(c, k)
    ensures r.Ok? ==> r.value.tokens == c.tokens
  {
    var total := Get(c, seller).lamports + Get(c, listing).lamports;
    if total >= U64_LIMIT then Fail(ArithmeticOverflow)
    else
      var c1 := SetLamports(c, seller, total);
      Ok(SetAccount(c1, listing, Account(0, ZeroBytes(|Get(c1, listing).data|))))
  }

  function BuyNft(env: Env, c: Chain, metas: seq<AccountMeta>): (r: Res<Chain>)
    ensures r.Ok? ==> |metas| >= 9 && metas[2].key == Pda(env, ListingSeeds(metas[3].key, metas[1].key))
    ensures r.Ok? ==> forall k :: k != metas[2].key ==> Get(r.value, k).data == Get(c, k).data
    ensures r.Ok? ==> Get(r.value, metas[2].key) == Account(0, ZeroBytes(LISTING_SPACE))
  {
    if |metas| < 9 then Fail(NotEnoughAccountKeys) else
    var buyer, seller, listing, nftMint, escrowPda := metas[0], metas[1], metas[2], metas[3], metas[4];
    var escrowToken, buyerToken, tokenProgram, system := metas[5], metas[6], metas[7], metas[8];
    if !buyer.isSigner then Fail(MissingRequiredSignature) else
    if Pda(env, ListingSeeds(nftMint.key, seller.key)) != listing.key then Fail(InvalidAccountData) else
    var record := UnpackListing(c, listing.key);
    if record.Fail? then Fail(record.error) else
    var l := record.value;
    if l.seller != seller.key then Fail(Into(Unauthorized)) else
    var paid := SystemTransfer(c, system.key, buyer.key, seller.key, l.price);
    if paid.Fail? then Fail(paid.error) else
    if Pda(env, EscrowSeeds(nftMint.key)) != escrowPda.key then Fail(InvalidAccountData) else
    var moved := TokenTransfer(env, paid.value, tokenProgram.key, escrowToken.key, buyerToken.key, escrowPda.key, 1);
    if moved.Fail? then Fail(moved.error) else
    CloseListing(moved.value, seller.key, listing.key)
  }

  // ---------------------------------------------------------------------------
  // Entry point

  /** `Processor::process`: decode the instruction data, then dispatch. */
  function Process(env: Env, c: Chain, metas: seq<AccountMeta>, data: seq<byte>): (r: Res<Chain>)
    ensures r.Ok? ==> Decode(data).Some?
    ensures Decode(data).None? ==> r == Fail(Custom(0))
  {
    match Decode(data)
    case None => Fail(Into(InvalidInstruction))
    case Some(ix) => Dispatch(env, c, metas, ix)
  }

  function Dispatch(env: Env, c: Chain, metas: seq<AccountMeta>, ix: DealInstruction): Res<Chain>
  {
    match ix
    case RegisterMerchant(name, uri) => RegisterMerchant(env, c, metas, name, uri)
    case SetCollectionMint(cm) => SetCollectionMint(env, c, metas, cm)
    case CreateDeal(id, title, desc, discount, expiry, supply, image, meta) =>
      CreateDeal(env, c, metas, DealArgs(id, title, desc, discount, expiry, supply, image, meta))
    case MintCouponNft(id) => MintCoupon(env, c, metas, id)
    case RedeemCoupon(mint) => RedeemCoupon(env, c, metas, mint)
    case AddReview(id, rating, comment) => AddReview(env, c, metas, id, rating, comment)
    // the mint argument of VerifyAndCountMint is decoded and ignored
    case VerifyAndCountMint(id, _) => VerifyAndCountMint(env, c, metas, id)
    case RedeemAndBurn(mint) => RedeemAndBurn(env, c, metas, mint)
    case ListNft(price) => ListNft(env, c, metas, price)
    case BuyNft => BuyNft(env, c, metas)
  }

  /** The state after the instruction: the handler's result, or no change at all when it fails. */
  function Apply(env: Env, c: Chain, metas: seq<AccountMeta>, data: seq<byte>): (r: Chain)
    ensures Process(env, c, metas, data).Fail? ==> r == c
  {
    match Process(env, c, metas, data)
    case Ok(c1) => c1
    case Fail(_) => c
  }
}
