/**
 * The processor as the program runs it: each handler steps through its
 * account list, reads records out of account buffers, updates their fields
 * in place and writes them back into the same buffers, calling the System
 * and SPL Token programs along the way.  The accounts the runtime lends the
 * program are the fields of a `Ledger`; every handler is proved to end with
 * the outcome and the accounts its specification in `Handlers` gives, and
 * `Process` puts the accounts back as they were when the handler fails.
 */
module Processor {
  import opened Borsh
  import opened State
  import opened Errors
  import opened Runtime
  import Instruction
  import Handlers

  /** A handler's result joined with the accounts it left behind: the accounts only count on success. */
  function Outcome(r: Res<()>, c: Chain): (o: Res<Chain>)
    ensures o.Ok? <==> r.Ok?
    ensures o.Ok? ==> o.value == c
    ensures o.Fail? ==> o.error == r.error
  {
    if r.Ok? then Ok(c) else Fail(r.error)
  }

  /** The checks MintCouponNft and VerifyAndCountMint make before they read the deal have passed. */
  predicate DealResolved(env: Env, c: Chain, metas: seq<AccountMeta>, dealId: u64)
  {
    |metas| >= 3 && metas[0].isSigner
    && Handlers.UnpackMerchant(c, metas[1].key).Ok?
    && Handlers.Pda(env, Handlers.DealSeeds(Handlers.UnpackMerchant(c, metas[1].key).value.merchant, dealId)) == metas[2].key
  }

  class Ledger {
    var accounts: map<Pubkey, Account>
    var tokens: map<Pubkey, TokenAccount>

    function Snapshot(): Chain
      reads this
    {
      Chain(accounts, tokens)
    }

    constructor(c: Chain)
      ensures Snapshot() == c
    {
      accounts := c.accounts;
      tokens := c.tokens;
    }

    // -------------------------------------------------------------------------
    // Writing into account buffers and calling other programs

    /**
     * `record.serialize(&mut &mut account.data.borrow_mut()[..])`: the bytes
     * that fit are written in place even when the rest does not fit, which
     * is then a Borsh I/O error.
     */
    method Serialize(k: Pubkey, bytes: seq<byte>) returns (r: Res<()>)
      modifies this
      ensures Outcome(r, Snapshot()) == Runtime.Serialize(old(Snapshot()), k, bytes)
      ensures Snapshot() == SetData(old(Snapshot()), k, Overwrite(Get(old(Snapshot()), k).data, bytes))
    {
      var a := Get(Snapshot(), k);
      accounts := accounts[k := a.(data := Overwrite(a.data, bytes))];
      r := if |bytes| <= |a.data| then Ok(()) else Fail(BorshIoError);
    }

    /** `invoke(&system_instruction::create_account(..))`. */
    method CreateAccount(systemKey: Pubkey, payer: Pubkey, target: Pubkey, lamports: nat, space: nat)
      returns (r: Res<()>)
      modifies this
      ensures Outcome(r, Snapshot()) == Runtime.CreateAccount(old(Snapshot()), systemKey, payer, target, lamports, space)
    {
      var p, t := Get(Snapshot(), payer), Get(Snapshot(), target);
      if systemKey != SYSTEM_PROGRAM_ID || t.lamports > 0 || |t.data| > 0 || |p.data| > 0 || p.lamports < lamports {
        return Fail(SystemProgramFailure);
      }
      accounts := accounts[payer := p.(lamports := p.lamports - lamports)];
      accounts := accounts[target := Account(lamports, ZeroBytes(space))];
      r := Ok(());
    }

    /** `invoke(&system_instruction::transfer(..))`. */
    method SystemTransfer(systemKey: Pubkey, from: Pubkey, to: Pubkey, amount: nat) returns (r: Res<()>)
      modifies this
      ensures Outcome(r, Snapshot()) == Runtime.SystemTransfer(old(Snapshot()), systemKey, from, to, amount)
    {
      var f := Get(Snapshot(), from);
      if systemKey != SYSTEM_PROGRAM_ID || |f.data| > 0 || f.lamports < amount {
        return Fail(SystemProgramFailure);
      }
      if from != to && Get(Snapshot(), to).lamports + amount >= U64_LIMIT {
        return Fail(SystemProgramFailure);
      }
      accounts := accounts[from := f.(lamports := f.lamports - amount)];
      var t := Get(Snapshot(), to);
      accounts := accounts[to := t.(lamports := t.lamports + amount)];
      r := Ok(());
    }

    /** `invoke(&spl_token::instruction::burn(..))`. */
    method TokenBurn(env: Env, programKey: Pubkey, account: Pubkey, mint: Pubkey, authority: Pubkey, amount: nat)
      returns (r: Res<()>)
      modifies this
      ensures Outcome(r, Snapshot()) == Runtime.TokenBurn(env, old(Snapshot()), programKey, account, mint, authority, amount)
    {
      if programKey != env.tokenProgram || account !in tokens {
        return Fail(TokenProgramFailure);
      }
      var t := tokens[account];
      if t.mint != mint || t.owner != authority || t.amount < amount {
        return Fail(TokenProgramFailure);
      }
      tokens := tokens[account := t.(amount := t.amount - amount)];
      r := Ok(());
    }

    /** `invoke(&spl_token::instruction::transfer(..))` (or `invoke_signed` for the escrow). */
    method TokenTransfer(env: Env, programKey: Pubkey, src: Pubkey, dst: Pubkey, authority: Pubkey, amount: nat)
      returns (r: Res<()>)
      modifies this
      ensures Outcome(r, Snapshot()) == Runtime.TokenTransfer(env, old(Snapshot()), programKey, src, dst, authority, amount)
    {
      if programKey != env.tokenProgram || src !in tokens || dst !in tokens {
        return Fail(TokenProgramFailure);
      }
      var s, d := tokens[src], tokens[dst];
      if s.mint != d.mint || s.owner != authority || s.amount < amount {
        return Fail(TokenProgramFailure);
      }
      if src != dst && d.amount + amount >= U64_LIMIT {
        return Fail(TokenProgramFailure);
      }
      tokens := tokens[src := s.(amount := s.amount - amount)];
      tokens := tokens[dst := tokens[dst].(amount := tokens[dst].amount + amount)];
      r := Ok(());
    }

    // -------------------------------------------------------------------------
    // The handlers.  Each one is the handler of `Handlers` with the same name,
    // step for step; `spec` is that handler's result on the accounts at entry,
    // and each exit states which of its branches was taken.

    /** `process_register_merchant`. */
    method ProcessRegisterMerchant(env: Env, metas: seq<AccountMeta>, name: Text, uri: Text) returns (r: Res<()>)
      modifies this
      ensures Outcome(r, Snapshot()) == Handlers.RegisterMerchant(env, old(Snapshot()), metas, name, uri)
    {
      ghost var spec := Handlers.RegisterMerchant(env, Snapshot(), metas, name, uri);
      r := Handlers.AssertLen(name, MAX_NAME_LEN);
      if r.Fail? { assert spec == Fail(r.error); return; }
      r := Handlers.AssertLen(uri, MAX_URI_LEN);
      if r.Fail? { assert spec == Fail(r.error); return; }
      if |metas| < 3 {
        assert spec == Fail(NotEnoughAccountKeys);
        return Fail(NotEnoughAccountKeys);
      }
      var payer, merchantPda, system := metas[0], metas[1], metas[2];
      if !payer.isSigner {
        assert spec == Fail(Into(Unauthorized));
        return Fail(Into(Unauthorized));
      }
      if Handlers.Pda(env, Handlers.MerchantSeeds(payer.key)) != merchantPda.key {
        assert spec == Fail(Into(PdaDerivationMismatch));
        return Fail(Into(PdaDerivationMismatch));
      }
      if |Get(Snapshot(), merchantPda.key).data| > 0 {
        assert spec == Fail(Into(AlreadyInitialized));
        return Fail(Into(AlreadyInitialized));
      }
      var lamports := env.rent(MERCHANT_SPACE);
      r := CreateAccount(system.key, payer.key, merchantPda.key, lamports, MERCHANT_SPACE);
      if r.Fail? { assert spec == Fail(r.error); return; }
      var merchant := Merchant(payer.key, name, uri, 0, ZERO_KEY);
      assert spec == Runtime.Serialize(Snapshot(), merchantPda.key, EncodeMerchant(merchant));
      r := Serialize(merchantPda.key, EncodeMerchant(merchant));
    }

    /** `process_set_collection_mint`: the merchant record is read, its field set, and written back. */
    method ProcessSetCollectionMint(env: Env, metas: seq<AccountMeta>, collectionMint: Pubkey) returns (r: Res<()>)
      modifies this
      ensures Outcome(r, Snapshot()) == Handlers.SetCollectionMint(env, old(Snapshot()), metas, collectionMint)
    {
      ghost var spec := Handlers.SetCollectionMint(env, Snapshot(), metas, collectionMint);
      if |metas| < 2 {
        assert spec == Fail(NotEnoughAccountKeys);
        return Fail(NotEnoughAccountKeys);
      }
      var payer, merchantPda := metas[0], metas[1];
      if !payer.isSigner {
        assert spec == Fail(Into(Unauthorized));
        return Fail(Into(Unauthorized));
      }
      if Handlers.Pda(env, Handlers.MerchantSeeds(payer.key)) != merchantPda.key {
        assert spec == Fail(Into(PdaDerivationMismatch));
        return Fail(Into(PdaDerivationMismatch));
      }
      var unpacked := Handlers.UnpackMerchant(Snapshot(), merchantPda.key);
      if unpacked.Fail? {
        assert spec == Fail(unpacked.error);
        return Fail(unpacked.error);
      }
      var merchant := unpacked.value;
      merchant := merchant.(collectionMint := collectionMint);
      assert spec == Runtime.Serialize(Snapshot(), merchantPda.key, EncodeMerchant(merchant));
      r := Serialize(merchantPda.key, EncodeMerchant(merchant));
    }

    /**
     * `process_create_deal`: the deal account is created and written, then
     * the merchant's `total_deals` is incremented best-effort, ignoring a
     * merchant record that does not decode and a write that does not fit.
     */
    method ProcessCreateDeal(env: Env, metas: seq<AccountMeta>, a: Handlers.DealArgs) returns (r: Res<()>)
      modifies this
      ensures Outcome(r, Snapshot()) == Handlers.CreateDeal(env, old(Snapshot()), metas, a)
    {
      ghost var spec := Handlers.CreateDeal(env, Snapshot(), metas, a);
      r := Handlers.AssertLen(a.title, MAX_TITLE_LEN);
      if r.Fail? { assert spec == Fail(r.error); return; }
      r := Handlers.AssertLen(a.description, MAX_DESC_LEN);
      if r.Fail? { assert spec == Fail(r.error); return; }
      r := Handlers.AssertLen(a.imageUri, MAX_URI_LEN);
      if r.Fail? { assert spec == Fail(r.error); return; }
      r := Handlers.AssertLen(a.metadataUri, MAX_URI_LEN);
      if r.Fail? { assert spec == Fail(r.error); return; }
      if |metas| < 4 {
        assert spec == Fail(NotEnoughAccountKeys);
        return Fail(NotEnoughAccountKeys);
      }
      var payer, merchantPda, dealPda, system := metas[0], metas[1], metas[2], metas[3];
      if !payer.isSigner {
        assert spec == Fail(Into(Unauthorized));
        return Fail(Into(Unauthorized));
      }
      if Handlers.Pda(env, Handlers.MerchantSeeds(payer.key)) != merchantPda.key {
        assert spec == Fail(Into(PdaDerivationMismatch));
        return Fail(Into(PdaDerivationMismatch));
      }
      if |Get(Snapshot(), merchantPda.key).data| == 0 {
        assert spec == Fail(Into(Unauthorized));
        return Fail(Into(Unauthorized));
      }
      if Handlers.Pda(env, Handlers.DealSeeds(payer.key, a.dealId)) != dealPda.key {
        assert spec == Fail(Into(PdaDerivationMismatch));
        return Fail(Into(PdaDerivationMismatch));
      }
      if |Get(Snapshot(), dealPda.key).data| > 0 {
        assert spec == Fail(Into(AlreadyInitialized));
        return Fail(Into(AlreadyInitialized));
      }
      r := CreateAccount(system.key, payer.key, dealPda.key, env.rent(DEAL_SPACE), DEAL_SPACE);
      if r.Fail? { assert spec == Fail(r.error); return; }
      ghost var created := Snapshot();
      r := Serialize(dealPda.key, EncodeDeal(Handlers.NewDeal(payer.key, a)));
      if r.Fail? {
        assert spec == Runtime.Serialize(created, dealPda.key, EncodeDeal(Handlers.NewDeal(payer.key, a)));
        return;
      }
      ghost var written := Snapshot();
      assert spec == Ok(Handlers.CountDeal(written, merchantPda.key));
      var merchant := ReadMerchant(Get(Snapshot(), merchantPda.key).data);
      if merchant.Some? {
        var m := merchant.value.0;
        if m.totalDeals + 1 < U32_LIMIT {
          m := m.(totalDeals := m.totalDeals + 1);
        }
        var _ := Serialize(merchantPda.key, EncodeMerchant(m));
      }
    }

    /** `process_mint_coupon`: the account checks, then the block that counts the mint. */
    method ProcessMintCoupon(env: Env, metas: seq<AccountMeta>, dealId: u64) returns (r: Res<()>)
      modifies this
      ensures Outcome(r, Snapshot()) == Handlers.MintCoupon(env, old(Snapshot()), metas, dealId)
    {
      ghost var spec := Handlers.MintCoupon(env, Snapshot(), metas, dealId);
      if |metas| < 3 {
        assert spec == Fail(NotEnoughAccountKeys);
        return Fail(NotEnoughAccountKeys);
      }
      var user, merchantPda, dealPda := metas[0], metas[1], metas[2];
      if !user.isSigner {
        assert spec == Fail(Into(Unauthorized));
        return Fail(Into(Unauthorized));
      }
      var merchant := Handlers.UnpackMerchant(Snapshot(), merchantPda.key);
      if merchant.Fail? {
        assert spec == Fail(merchant.error);
        return Fail(merchant.error);
      }
      if Handlers.Pda(env, Handlers.DealSeeds(merchant.value.merchant, dealId)) != dealPda.key {
        assert spec == Fail(Into(PdaDerivationMismatch));
        return Fail(Into(PdaDerivationMismatch));
      }
      r := MintFromDeal(env, metas, dealId);
    }

    /**
     * The block of `process_mint_coupon` that reads the deal, increments
     * `minted` in place (checked), checks the supply and writes the deal back.
     */
    method MintFromDeal(env: Env, metas: seq<AccountMeta>, dealId: u64) returns (r: Res<()>)
      requires DealResolved(env, Snapshot(), metas, dealId)
      modifies this
      ensures Outcome(r, Snapshot()) == Handlers.MintCoupon(env, old(Snapshot()), metas, dealId)
    {
      ghost var spec := Handlers.MintCoupon(env, Snapshot(), metas, dealId);
      var dealPda := metas[2];
      var unpacked := Handlers.UnpackDeal(Snapshot(), dealPda.key);
      if unpacked.Fail? {
        assert spec == Fail(unpacked.error);
        return Fail(unpacked.error);
      }
      var deal := unpacked.value;
      if deal.minted + 1 >= U32_LIMIT {
        assert spec == Fail(Into(Overflow));
        return Fail(Into(Overflow));
      }
      // `minted` is compared with the supply after the increment
      if deal.minted + 1 > deal.totalSupply {
        assert spec == Fail(Into(DealSoldOut));
        return Fail(Into(DealSoldOut));
      }
      r := WriteCounted(env, metas, dealId);
    }

    /** `process_redeem_coupon`. */
    method ProcessRedeemCoupon(env: Env, metas: seq<AccountMeta>, mint: Pubkey) returns (r: Res<()>)
      modifies this
      ensures Outcome(r, Snapshot()) == Handlers.RedeemCoupon(env, old(Snapshot()), metas, mint)
    {
      ghost var spec := Handlers.RedeemCoupon(env, Snapshot(), metas, mint);
      if |metas| < 3 {
        assert spec == Fail(NotEnoughAccountKeys);
        return Fail(NotEnoughAccountKeys);
      }
      var user, redeemLog, system := metas[0], metas[1], metas[2];
      if !user.isSigner {
        assert spec == Fail(Into(Unauthorized));
        return Fail(Into(Unauthorized));
      }
      if Handlers.Pda(env, Handlers.RedeemSeeds(mint)) != redeemLog.key {
        assert spec == Fail(Into(PdaDerivationMismatch));
        return Fail(Into(PdaDerivationMismatch));
      }
      if |Get(Snapshot(), redeemLog.key).data| > 0 {
        assert spec == Fail(Into(AlreadyRedeemed));
        return Fail(Into(AlreadyRedeemed));
      }
      r := CreateAccount(system.key, user.key, redeemLog.key, env.rent(REDEEM_LOG_SPACE), REDEEM_LOG_SPACE);
      if r.Fail? { assert spec == Fail(r.error); return; }
      var log := RedeemLog(mint, user.key, env.now);
      assert spec == Runtime.Serialize(Snapshot(), redeemLog.key, EncodeRedeemLog(log));
      r := Serialize(redeemLog.key, EncodeRedeemLog(log));
    }

    /** `process_add_review`. */
    method ProcessAddReview(env: Env, metas: seq<AccountMeta>, dealId: u64, rating: u8, comment: Text)
      returns (r: Res<()>)
      modifies this
      ensures Outcome(r, Snapshot()) == Handlers.AddReview(env, old(Snapshot()), metas, dealId, rating, comment)
    {
      ghost var spec := Handlers.AddReview(env, Snapshot(), metas, dealId, rating, comment);
      if rating == 0 || rating > 5 {
        assert spec == Fail(Into(InvalidInput));
        return Fail(Into(InvalidInput));
      }
      if |comment| > MAX_COMMENT_LEN {
        assert spec == Fail(Into(InvalidInput));
        return Fail(Into(InvalidInput));
      }
      if |metas| < 5 {
        assert spec == Fail(NotEnoughAccountKeys);
        return Fail(NotEnoughAccountKeys);
      }
      var user, merchantPda, dealPda, reviewPda, system := metas[0], metas[1], metas[2], metas[3], metas[4];
      if !user.isSigner {
        assert spec == Fail(Into(Unauthorized));
        return Fail(Into(Unauthorized));
      }
      var merchant := Handlers.UnpackMerchant(Snapshot(), merchantPda.key);
      if merchant.Fail? {
        assert spec == Fail(merchant.error);
        return Fail(merchant.error);
      }
      if Handlers.Pda(env, Handlers.DealSeeds(merchant.value.merchant, dealId)) != dealPda.key {
        assert spec == Fail(Into(PdaDerivationMismatch));
        return Fail(Into(PdaDerivationMismatch));
      }
      if Handlers.Pda(env, Handlers.ReviewSeeds(dealPda.key, user.key)) != reviewPda.key {
        assert spec == Fail(Into(PdaDerivationMismatch));
        return Fail(Into(PdaDerivationMismatch));
      }
      if |Get(Snapshot(), reviewPda.key).data| > 0 {
        assert spec == Fail(Into(AlreadyInitialized));
        return Fail(Into(AlreadyInitialized));
      }
      r := CreateAccount(system.key, user.key, reviewPda.key, env.rent(REVIEW_SPACE), REVIEW_SPACE);
      if r.Fail? { assert spec == Fail(r.error); return; }
      var review := Review(user.key, dealPda.key, rating, comment, env.now);
      assert spec == Runtime.Serialize(Snapshot(), reviewPda.key, EncodeReview(review));
      r := Serialize(reviewPda.key, EncodeReview(review));
    }

    /** `process_verify_and_count_mint`: the account checks, then the block that counts the mint. */
    method ProcessVerifyAndCountMint(env: Env, metas: seq<AccountMeta>, dealId: u64) returns (r: Res<()>)
      modifies this
      ensures Outcome(r, Snapshot()) == Handlers.VerifyAndCountMint(env, old(Snapshot()), metas, dealId)
    {
      ghost var spec := Handlers.VerifyAndCountMint(env, Snapshot(), metas, dealId);
      if |metas| < 3 {
        assert spec == Fail(NotEnoughAccountKeys);
        return Fail(NotEnoughAccountKeys);
      }
      var user, merchantPda, dealPda := metas[0], metas[1], metas[2];
      if !user.isSigner {
        assert spec == Fail(Into(Unauthorized));
        return Fail(Into(Unauthorized));
      }
      var merchant := Handlers.UnpackMerchant(Snapshot(), merchantPda.key);
      if merchant.Fail? {
        assert spec == Fail(merchant.error);
        return Fail(merchant.error);
      }
      if Handlers.Pda(env, Handlers.DealSeeds(merchant.value.merchant, dealId)) != dealPda.key {
        assert spec == Fail(Into(PdaDerivationMismatch));
        return Fail(Into(PdaDerivationMismatch));
      }
      r := CountFromDeal(env, metas, dealId);
    }

    /**
     * The block of `process_verify_and_count_mint` that reads the deal,
     * checks the supply first, then increments `minted` (checked) and writes
     * the deal back.
     */
    method CountFromDeal(env: Env, metas: seq<AccountMeta>, dealId: u64) returns (r: Res<()>)
      requires DealResolved(env, Snapshot(), metas, dealId)
      modifies this
      ensures Outcome(r, Snapshot()) == Handlers.VerifyAndCountMint(env, old(Snapshot()), metas, dealId)
    {
      ghost var spec := Handlers.VerifyAndCountMint(env, Snapshot(), metas, dealId);
      var dealPda := metas[2];
      var unpacked := Handlers.UnpackDeal(Snapshot(), dealPda.key);
      if unpacked.Fail? {
        assert spec == Fail(unpacked.error);
        return Fail(unpacked.error);
      }
      var deal := unpacked.value;
      if deal.minted >= deal.totalSupply {
        assert spec == Fail(Into(DealSoldOut));
        return Fail(Into(DealSoldOut));
      }
      // below the supply, `minted.checked_add(1)` cannot overflow a u32
      assert deal.minted + 1 < U32_LIMIT;
      r := WriteCounted(env, metas, dealId);
    }

    /**
     * The end of both counting blocks: the deal the block read, with
     * `minted` one higher, is written back over the record it was read from.
     */
    method WriteCounted(env: Env, metas: seq<AccountMeta>, dealId: u64) returns (r: Res<()>)
      requires DealResolved(env, Snapshot(), metas, dealId)
      requires Handlers.UnpackDeal(Snapshot(), metas[2].key).Ok?
      requires Handlers.UnpackDeal(Snapshot(), metas[2].key).value.minted + 1 < U32_LIMIT
      requires Handlers.UnpackDeal(Snapshot(), metas[2].key).value.minted + 1
               <= Handlers.UnpackDeal(Snapshot(), metas[2].key).value.totalSupply
      modifies this
      ensures Outcome(r, Snapshot()) == Handlers.MintCoupon(env, old(Snapshot()), metas, dealId)
      ensures Outcome(r, Snapshot()) == Handlers.VerifyAndCountMint(env, old(Snapshot()), metas, dealId)
    {
      var deal := Handlers.UnpackDeal(Snapshot(), metas[2].key).value;
      deal := deal.(minted := deal.minted + 1);
      r := Serialize(metas[2].key, EncodeDeal(deal));
    }

    /** `process_redeem_and_burn`: one token is burned before the redeem log is checked and created. */
    method ProcessRedeemAndBurn(env: Env, metas: seq<AccountMeta>, mint: Pubkey) returns (r: Res<()>)
      modifies this
      ensures Outcome(r, Snapshot()) == Handlers.RedeemAndBurn(env, old(Snapshot()), metas, mint)
    {
      ghost var spec := Handlers.RedeemAndBurn(env, Snapshot(), metas, mint);
      if |metas| < 6 {
        assert spec == Fail(NotEnoughAccountKeys);
        return Fail(NotEnoughAccountKeys);
      }
      var user, userToken, mintAccount, tokenProgram, redeemLog, system :=
        metas[0], metas[1], metas[2], metas[3], metas[4], metas[5];
      if !user.isSigner {
        assert spec == Fail(Into(Unauthorized));
        return Fail(Into(Unauthorized));
      }
      if mintAccount.key != mint {
        assert spec == Fail(Into(InvalidInput));
        return Fail(Into(InvalidInput));
      }
      r := TokenBurn(env, tokenProgram.key, userToken.key, mintAccount.key, user.key, 1);
      if r.Fail? { assert spec == Fail(r.error); return; }
      if Handlers.Pda(env, Handlers.RedeemSeeds(mint)) != redeemLog.key {
        assert spec == Fail(Into(PdaDerivationMismatch));
        return Fail(Into(PdaDerivationMismatch));
      }
      if |Get(Snapshot(), redeemLog.key).data| > 0 {
        assert spec == Fail(Into(AlreadyRedeemed));
        return Fail(Into(AlreadyRedeemed));
      }
      r := CreateAccount(system.key, user.key, redeemLog.key, env.rent(REDEEM_LOG_SPACE), REDEEM_LOG_SPACE);
      if r.Fail? { assert spec == Fail(r.error); return; }
      var log := RedeemLog(mint, user.key, env.now);
      assert spec == Runtime.Serialize(Snapshot(), redeemLog.key, EncodeRedeemLog(log));
      r := Serialize(redeemLog.key, EncodeRedeemLog(log));
    }

    /** `process_list_nft`: create the listing, move the NFT to escrow, write the listing. */
    method ProcessListNft(env: Env, metas: seq<AccountMeta>, price: u64) returns (r: Res<()>)
      modifies this
      ensures Outcome(r, Snapshot()) == Handlers.ListNft(env, old(Snapshot()), metas, price)
    {
      ghost var spec := Handlers.ListNft(env, Snapshot(), metas, price);
      if |metas| < 7 {
        assert spec == Fail(NotEnoughAccountKeys);
        return Fail(NotEnoughAccountKeys);
      }
      var seller, listing, nftMint, sellerToken, escrowToken, tokenProgram, system :=
        metas[0], metas[1], metas[2], metas[3], metas[4], metas[5], metas[6];
      if !seller.isSigner {
        assert spec == Fail(MissingRequiredSignature);
        return Fail(MissingRequiredSignature);
      }
      if price == 0 {
        assert spec == Fail(Into(InvalidInput));
        return Fail(Into(InvalidInput));
      }
      if Handlers.Pda(env, Handlers.ListingSeeds(nftMint.key, seller.key)) != listing.key {
        assert spec == Fail(InvalidAccountData);
        return Fail(InvalidAccountData);
      }
      r := CreateAccount(system.key, seller.key, listing.key, env.rent(LISTING_SPACE), LISTING_SPACE);
      if r.Fail? { assert spec == Fail(r.error); return; }
      r := TokenTransfer(env, tokenProgram.key, sellerToken.key, escrowToken.key, seller.key, 1);
      if r.Fail? { assert spec == Fail(r.error); return; }
      var record := Listing(seller.key, nftMint.key, price, env.now);
      assert spec == Runtime.Serialize(Snapshot(), listing.key, EncodeListing(record));
      r := Serialize(listing.key, EncodeListing(record));
    }

    /**
     * `process_buy_nft`: pay the seller, move the NFT out of escrow, then
     * close the listing by hand: the seller takes its lamports (a checked
     * add), and its lamports and data are zeroed.
     */
    method ProcessBuyNft(env: Env, metas: seq<AccountMeta>) returns (r: Res<()>)
      modifies this
      ensures Outcome(r, Snapshot()) == Handlers.BuyNft(env, old(Snapshot()), metas)
    {
      ghost var spec := Handlers.BuyNft(env, Snapshot(), metas);
      if |metas| < 9 {
        assert spec == Fail(NotEnoughAccountKeys);
        return Fail(NotEnoughAccountKeys);
      }
      var buyer, seller, listing, nftMint, escrowPda := metas[0], metas[1], metas[2], metas[3], metas[4];
      var escrowToken, buyerToken, tokenProgram, system := metas[5], metas[6], metas[7], metas[8];
      if !buyer.isSigner {
        assert spec == Fail(MissingRequiredSignature);
        return Fail(MissingRequiredSignature);
      }
      if Handlers.Pda(env, Handlers.ListingSeeds(nftMint.key, seller.key)) != listing.key {
        assert spec == Fail(InvalidAccountData);
        return Fail(InvalidAccountData);
      }
      var record := Handlers.UnpackListing(Snapshot(), listing.key);
      if record.Fail? {
        assert spec == Fail(record.error);
        return Fail(record.error);
      }
      if record.value.seller != seller.key {
        assert spec == Fail(Into(Unauthorized));
        return Fail(Into(Unauthorized));
      }
      r := SystemTransfer(system.key, buyer.key, seller.key, record.value.price);
      if r.Fail? { assert spec == Fail(r.error); return; }
      if Handlers.Pda(env, Handlers.EscrowSeeds(nftMint.key)) != escrowPda.key {
        assert spec == Fail(InvalidAccountData);
        return Fail(InvalidAccountData);
      }
      r := TokenTransfer(env, tokenProgram.key, escrowToken.key, buyerToken.key, escrowPda.key, 1);
      if r.Fail? { assert spec == Fail(r.error); return; }
      assert spec == Handlers.CloseListing(Snapshot(), seller.key, listing.key);
      r := CloseListing(seller.key, listing.key);
    }

    /**
     * The end of `process_buy_nft`: the seller's lamports become the sum of
     * both balances (a checked add), then the listing's lamports are set to
     * zero and its data is filled with zeros.
     */
    method CloseListing(seller: Pubkey, listing: Pubkey) returns (r: Res<()>)
      modifies this
      ensures Outcome(r, Snapshot()) == Handlers.CloseListing(old(Snapshot()), seller, listing)
    {
      var total := Get(Snapshot(), seller).lamports + Get(Snapshot(), listing).lamports;
      if total >= U64_LIMIT {
        return Fail(ArithmeticOverflow);
      }
      accounts := accounts[seller := Get(Snapshot(), seller).(lamports := total)];
      var closed := Get(Snapshot(), listing);
      accounts := accounts[listing := Account(0, ZeroBytes(|closed.data|))];
      r := Ok(());
    }

    // -------------------------------------------------------------------------
    // Entry point

    /** `Processor::process`: decode the instruction data, then run its handler. */
    method Process(env: Env, metas: seq<AccountMeta>, data: seq<byte>) returns (r: Res<()>)
      modifies this
      ensures Outcome(r, Snapshot()) == Handlers.Process(env, old(Snapshot()), metas, data)
    {
      var decoded := Instruction.Decode(data);
      if decoded.None? {
        return Fail(Into(InvalidInstruction));
      }
      match decoded.value
      case RegisterMerchant(name, uri) =>
        r := ProcessRegisterMerchant(env, metas, name, uri);
      case SetCollectionMint(collectionMint) =>
        r := ProcessSetCollectionMint(env, metas, collectionMint);
      case CreateDeal(dealId, title, description, discount, expiry, supply, imageUri, metadataUri) =>
        r := ProcessCreateDeal(env, metas,
          Handlers.DealArgs(dealId, title, description, discount, expiry, supply, imageUri, metadataUri));
      case MintCouponNft(dealId) =>
        r := ProcessMintCoupon(env, metas, dealId);
      case RedeemCoupon(mint) =>
        r := ProcessRedeemCoupon(env, metas, mint);
      case AddReview(dealId, rating, comment) =>
        r := ProcessAddReview(env, metas, dealId, rating, comment);
      case VerifyAndCountMint(dealId, _) =>
        r := ProcessVerifyAndCountMint(env, metas, dealId);
      case RedeemAndBurn(mint) =>
        r := ProcessRedeemAndBurn(env, metas, mint);
      case ListNft(price) =>
        r := ProcessListNft(env, metas, price);
      case BuyNft =>
        r := ProcessBuyNft(env, metas);
    }

    /**
     * The runtime around one instruction: the program runs, and when it
     * returns an error every account it touched goes back to what it was.
     */
    method Execute(env: Env, metas: seq<AccountMeta>, data: seq<byte>) returns (r: Res<()>)
      modifies this
      ensures Snapshot() == Handlers.Apply(env, old(Snapshot()), metas, data)
      ensures r.Ok? <==> Handlers.Process(env, old(Snapshot()), metas, data).Ok?
    {
      var savedAccounts, savedTokens := accounts, tokens;
      r := Process(env, metas, data);
      if r.Fail? {
        accounts, tokens := savedAccounts, savedTokens;
      }
    }
  }
}
