# deal_platform in Dafny

This project models the Solana program `deal_platform` from MintMyDeal, together with the web client's wire contracts around it. Merchants register, create discount deals and mint coupon NFTs. Users redeem coupons, review deals and trade coupons on a small marketplace. The model covers:

- **The processor.** The entry point decodes the instruction data and dispatches to ten handlers: register merchant, set collection mint, create deal, mint coupon, redeem coupon, add review, verify-and-count mint, redeem-and-burn, list NFT and buy NFT.
  - Each handler is a specification function in `Handlers` over the accounts the runtime lends the program (`Runtime.Chain`). It returns `Ok(new accounts)` or `Fail(error)`.
  - Each handler is also an imperative method on the class `Processor.Ledger`. The method steps through the account list, reads records out of account buffers, updates fields and writes them back. It is proved to end in exactly the outcome the specification function gives.
  - `Handlers.Apply` and `Processor.Ledger.Execute` make an instruction atomic: on failure every account is as before, including accounts that a cross-program call had already changed.
- **Record and instruction layouts.** These are Borsh: little-endian integers, strings as a `u32` length followed by UTF-8 bytes, keys as 32 raw bytes, and enums as a `u8` variant index followed by the fields. Each layout has encode/decode round trips, canonical decoding, and size bounds against the `space()` formulas.
- **The error enum** and its conversion to `ProgramError::Custom(index)`.
- **The web client's instruction builders** (`instructions.ts`). These cover tags, argument serialisation, `u64LeBytes`, PDA seed lists and account lists. End-to-end lemmas relate each builder's output to the program's entry point.
- **The web client's error reporting** (`errors.ts`). This covers the code table, the error classifier with its regular expression, the explorer link and the shortened signature.

Modules:

- `Borsh`: primitives and UTF-8 validity.
- `State`: records, `space()` sizes and seed tags.
- `Instruction`: the instruction layout.
- `Errors`: the error enum and its conversion.
- `Runtime`: accounts, rent and clock as parameters, and the System and SPL Token effects.
- `Handlers`: the specification functions.
- `Properties`: lemmas about the handlers.
- `Processor`: the imperative handlers.
- `Client`: the instruction builders.
- `ClientErrors`: the client's error reporting.

Where the repository's parts disagree, the model follows the processor, which is the code that runs:

- **Merchant** carries `collection_mint` (processor.rs:92, 114).
- **Deal** carries `image_uri` and `metadata_uri` (processor.rs:182-183).
- **Listing** is (seller, nft_mint, price, created_at), as written at processor.rs:478-483, which makes it 80 bytes.
- **ListNft and BuyNft** are instruction variants 8 and 9, after `SetCollectionMint`, following the comment at instruction.rs:32.
- **Sizes.** The `space()` sizes are taken as state.rs writes them. `State.MerchantSize` and `State.DealSize` show how much room they leave for the processor's larger records.

## Model

| member | source | states |
|---|---|---|
| Borsh.LeValueOfLeBytes | contracts/programs/deal_platform/src/instruction.rs:13-18 | Reading back the little-endian bytes of any `n < 256^w` gives `n` |
| Borsh.LeBytesOfLeValue | contracts/programs/deal_platform/src/instruction.rs:13-18 | Any `w` bytes are the little-endian encoding of their value |
| Borsh.LeBytesInjective | contracts/programs/deal_platform/src/instruction.rs:13-18 | Distinct values below `256^w` have distinct encodings |
| Borsh.EncodeU8 | contracts/programs/deal_platform/src/instruction.rs:16 | A `u8` is the single byte itself |
| Borsh.EncodeU32 | contracts/programs/deal_platform/src/state.rs:19 | A `u32` is 4 bytes; `ReadU32Encode` and `ReadU32Canonical` show they are its little-endian form |
| Borsh.EncodeU64 | contracts/programs/deal_platform/src/instruction.rs:13 | A `u64` is 8 bytes, its little-endian form (`ReadU64Encode`, `ReadU64Canonical`) |
| Borsh.EncodeI64 | contracts/programs/deal_platform/src/instruction.rs:17 | An `i64` is 8 bytes, its two's-complement little-endian form (`ReadI64Encode`, `ReadI64Canonical`) |
| Borsh.ReadU8 | contracts/programs/deal_platform/src/instruction.rs:16 | Succeeds exactly on a non-empty input and splits off its first byte |
| Borsh.ReadU32 | contracts/programs/deal_platform/src/state.rs:19 | Succeeds exactly on at least 4 bytes and leaves the bytes after them |
| Borsh.ReadU64 | contracts/programs/deal_platform/src/instruction.rs:13 | Succeeds exactly on at least 8 bytes and leaves the bytes after them |
| Borsh.ReadI64 | contracts/programs/deal_platform/src/instruction.rs:17 | Succeeds exactly on at least 8 bytes and leaves the bytes after them |
| Borsh.ReadPubkey | contracts/programs/deal_platform/src/state.rs:16 | Succeeds exactly on at least 32 bytes; the key is those 32 bytes and the rest is left |
| Borsh.ReadU8Encode | contracts/programs/deal_platform/src/instruction.rs:16 | A `u8` reads back from its encoding; the bytes after it are left over |
| Borsh.ReadU32Encode | contracts/programs/deal_platform/src/state.rs:19 | A `u32` reads back from its 4 LE bytes; the bytes after it are left over |
| Borsh.ReadU64Encode | contracts/programs/deal_platform/src/instruction.rs:13 | A `u64` reads back from its 8 LE bytes |
| Borsh.ReadI64Encode | contracts/programs/deal_platform/src/instruction.rs:17 | An `i64` reads back from its two's-complement 8 LE bytes, negative values included |
| Borsh.ReadPubkeyEncode | contracts/programs/deal_platform/src/state.rs:16 | A key reads back from its 32 raw bytes, with no length prefix |
| Borsh.ReadU32Canonical | contracts/programs/deal_platform/src/state.rs:19 | Whatever a `u32` read accepts is that value's encoding followed by the rest |
| Borsh.ReadU64Canonical | contracts/programs/deal_platform/src/instruction.rs:13 | The same for `u64` |
| Borsh.ReadI64Canonical | contracts/programs/deal_platform/src/instruction.rs:17 | The same for `i64` |
| Borsh.Utf8Concat | contracts/programs/deal_platform/src/state.rs:17-18 | Joining two valid UTF-8 byte strings gives valid UTF-8 |
| Borsh.AsciiIsUtf8 | contracts/programs/deal_platform/src/state.rs:75-78 | Bytes below 128 are valid UTF-8 |
| Borsh.ValidUtf8 | contracts/programs/deal_platform/src/state.rs:17-18 | Well-formed UTF-8 per RFC 3629, which borsh checks when it reads a `String`; `Utf8Concat` and `AsciiIsUtf8` state its closure properties |
| Borsh.EncodeString | contracts/programs/deal_platform/src/state.rs:17-18 | A string is its `u32` byte length followed by its bytes, 4 + length bytes in all |
| Borsh.ReadString | contracts/programs/deal_platform/src/state.rs:17-18 | A string read consumes the 4-byte length and exactly that many bytes after it |
| Borsh.ReadStringEncode | contracts/programs/deal_platform/src/state.rs:17-18 | A string reads back from its length prefix and UTF-8 bytes |
| Borsh.ReadStringCanonical | contracts/programs/deal_platform/src/state.rs:17-18 | Whatever a string read accepts is that string's encoding followed by the rest |
| State.SeedTagsDistinct | contracts/programs/deal_platform/src/state.rs:74-79 | "merchant", "deal", "review" and "redeem" are pairwise distinct, and differ from the assumed "listing" and "escrow" tags |
| State.EncodeMerchant | contracts/programs/deal_platform/src/state.rs:14-20 | A merchant encodes to 76 bytes plus its name and uri |
| State.EncodeDeal | contracts/programs/deal_platform/src/state.rs:28-38 | A deal encodes to 73 bytes plus its four strings |
| State.EncodeReview | contracts/programs/deal_platform/src/state.rs:46-53 | A review encodes to 77 bytes plus its comment |
| State.EncodeRedeemLog | contracts/programs/deal_platform/src/state.rs:61-72 | A redeem log always encodes to exactly `space()` = 72 bytes |
| State.EncodeListing | contracts/programs/deal_platform/src/processor.rs:478-484 | A listing always encodes to exactly 80 bytes |
| State.ReadMerchant | contracts/programs/deal_platform/src/state.rs:14-20 | The prefix decoder of a merchant (fields in declaration order); `ReadMerchantEncode` and `ReadMerchantCanonical` make it the exact inverse of `EncodeMerchant` |
| State.ReadDeal | contracts/programs/deal_platform/src/state.rs:28-38 | The prefix decoder of a deal; `ReadDealEncode` and `ReadDealCanonical` make it the inverse of `EncodeDeal` |
| State.ReadReview | contracts/programs/deal_platform/src/state.rs:46-53 | The prefix decoder of a review; `ReadReviewEncode` and `ReadReviewCanonical` make it the inverse of `EncodeReview` |
| State.ReadRedeemLog | contracts/programs/deal_platform/src/state.rs:61-66 | The prefix decoder of a redeem log; `ReadRedeemLogEncode` and `ReadRedeemLogCanonical` make it the inverse of `EncodeRedeemLog` |
| State.ReadListing | contracts/programs/deal_platform/src/processor.rs:478-484 | The prefix decoder of a listing; `ReadListingEncode` and `ReadListingCanonical` make it the inverse of `EncodeListing` |
| State.ReadMerchantEncode | contracts/programs/deal_platform/src/state.rs:14-20 | Decoding an encoded merchant, followed by any bytes, gives the merchant and those bytes |
| State.ReadDealEncode | contracts/programs/deal_platform/src/state.rs:28-38 | The same round trip for a deal |
| State.ReadReviewEncode | contracts/programs/deal_platform/src/state.rs:46-53 | The same round trip for a review |
| State.ReadRedeemLogEncode | contracts/programs/deal_platform/src/state.rs:61-66 | The same round trip for a redeem log |
| State.ReadListingEncode | contracts/programs/deal_platform/src/processor.rs:478-484 | The same round trip for a listing |
| State.DecodeListing | contracts/programs/deal_platform/src/processor.rs:515 | The exact decode (`try_from_slice`) accepts only 80-byte buffers |
| State.DecodeListingEncode | contracts/programs/deal_platform/src/processor.rs:515 | The exact decode gives back an encoded listing |
| State.DecodeZeroListing | contracts/programs/deal_platform/src/processor.rs:551 | A zero-filled listing decodes as zero seller, zero mint, price 0 and time 0 |
| State.ReadMerchantCanonical | contracts/programs/deal_platform/src/state.rs:14-20 | Whatever the merchant read accepts is that merchant's encoding followed by the rest |
| State.ReadDealCanonical | contracts/programs/deal_platform/src/state.rs:28-38 | The same for a deal |
| State.ReadReviewCanonical | contracts/programs/deal_platform/src/state.rs:46-53 | The same for a review |
| State.ReadRedeemLogCanonical | contracts/programs/deal_platform/src/state.rs:61-66 | The same for a redeem log |
| State.ReadListingCanonical | contracts/programs/deal_platform/src/processor.rs:478-484 | The same for a listing |
| State.MerchantSize | contracts/programs/deal_platform/src/state.rs:8-25 | Without `collection_mint`, a merchant within the 64/200 limits fits the 308-byte `space()`. The processor's merchant fits only when name plus uri is at most 232 bytes |
| State.DealSize | contracts/programs/deal_platform/src/state.rs:10-43 | Without the two URIs, a deal within the 80/512 limits fits the 657-byte `space()`. The processor's deal fits exactly when its four strings total at most 584 bytes |
| State.ReviewSize | contracts/programs/deal_platform/src/state.rs:12-58 | A review fits the 357-byte `space()` exactly when its comment is at most 280 bytes |
| Errors.Code | contracts/programs/deal_platform/src/error.rs:5-22 | Every variant's code is below 8 |
| Errors.FromCode | contracts/programs/deal_platform/src/error.rs:5-22 | Exactly the codes below 8 name a variant |
| Errors.CodeRoundTrip | contracts/programs/deal_platform/src/error.rs:5-28 | Code and FromCode are inverse: InvalidInstruction = 0 through InvalidInput = 7 |
| Errors.CodeInjective | contracts/programs/deal_platform/src/error.rs:24-28 | Distinct variants have distinct codes |
| Errors.Into | contracts/programs/deal_platform/src/error.rs:24-28 | The conversion gives `Custom(c)`, where `c` maps back to the same variant |
| Errors.Message | contracts/programs/deal_platform/src/error.rs:6-21 | The `#[error(...)]` text of each variant; `ClientErrors.MeaningsAgree` relates it to the client's table |
| Instruction.Tag | contracts/programs/deal_platform/src/instruction.rs:8-34 | Variant indices follow declaration order (0-7), with ListNft = 8 and BuyNft = 9 appended, so tags 0-7 keep their values |
| Instruction.Encode | contracts/programs/deal_platform/src/instruction.rs:7-34 | The data starts with the variant's tag |
| Instruction.ReadInstruction | contracts/programs/deal_platform/src/instruction.rs:7-34 | Reads the tag byte and that variant's fields; any success had a tag below 10 |
| Instruction.Decode | contracts/programs/deal_platform/src/processor.rs:31 | `try_from_slice`: the instruction read must use every byte; `DecodeEncode`, `DecodeCanonical`, `TruncatedRejected` and `TrailingRejected` characterise it |
| Instruction.ReadPayload | contracts/programs/deal_platform/src/instruction.rs:8-34 | A payload read for a tag only ever yields that tag's variant |
| Instruction.DecodeEncode | contracts/programs/deal_platform/src/instruction.rs:7-34 | `try_from_slice` of an encoded instruction gives it back, for every variant |
| Instruction.DecodeCanonical | contracts/programs/deal_platform/src/instruction.rs:7-34 | Any data that decodes is exactly the encoding of what it decodes to |
| Instruction.UnknownTagRejected | contracts/programs/deal_platform/src/instruction.rs:8-34 | Data whose first byte is 10 or more does not decode |
| Instruction.DecodedPrefixIsWhole | contracts/programs/deal_platform/src/instruction.rs:8-34 | No proper prefix of an encoding decodes |
| Instruction.TruncatedRejected | contracts/programs/deal_platform/src/instruction.rs:8-34 | A truncated encoding does not decode |
| Instruction.TrailingRejected | contracts/programs/deal_platform/src/processor.rs:31 | An encoding followed by any extra bytes does not decode |
| Runtime.Overwrite | contracts/programs/deal_platform/src/processor.rs:93 | Writing into a buffer keeps its length. The bytes that fit replace its front, and the rest of the buffer is kept |
| Runtime.Serialize | contracts/programs/deal_platform/src/processor.rs:93 | Serialising into an account succeeds exactly when the record fits. Otherwise it is a Borsh I/O error. Only that account's data changes |
| Runtime.CreateAccount | contracts/programs/deal_platform/src/processor.rs:79-90 | Succeeds exactly for the System program, a target with no lamports and no data, and a data-less payer holding the lamports. It funds the target with zeroed space from the payer, and no other account's data changes |
| Runtime.SystemTransfer | contracts/programs/deal_platform/src/processor.rs:521-524 | Succeeds exactly for a data-less sender holding the amount whose credit to a different receiver stays within `u64` (the System program's checked add). It moves lamports from sender to receiver and changes no data |
| Runtime.TokenBurn | contracts/programs/deal_platform/src/processor.rs:381-397 | Succeeds exactly for a token account of the mint owned by the authority with enough balance. It lowers that balance and leaves the accounts alone |
| Runtime.TokenTransfer | contracts/programs/deal_platform/src/processor.rs:466-474 | Succeeds exactly for two token accounts of the same mint whose source the authority owns with enough balance, and whose credit to a different destination stays within `u64` (SPL Token's checked add). It moves `amount`, the two accounts keep their mint and owner, the set of token accounts is kept, and every other token account is unchanged |
| Handlers.MerchantSeeds | contracts/programs/deal_platform/src/processor.rs:73 | The merchant PDA seeds: "merchant" and the merchant key; `Client.SeedsMatchProgram` equates the client's list |
| Handlers.DealSeeds | contracts/programs/deal_platform/src/processor.rs:150-151 | The deal PDA seeds: "deal", the merchant key and `deal_id` as 8 LE bytes |
| Handlers.ReviewSeeds | contracts/programs/deal_platform/src/processor.rs:305 | The review PDA seeds: "review", the deal PDA and the user |
| Handlers.RedeemSeeds | contracts/programs/deal_platform/src/processor.rs:254 | The redeem PDA seeds: "redeem" and the mint |
| Handlers.ListingSeeds | contracts/programs/deal_platform/src/processor.rs:440 | The listing PDA seeds: the assumed "listing" tag, the mint and the seller |
| Handlers.EscrowSeeds | contracts/programs/deal_platform/src/processor.rs:527 | The escrow PDA seeds: the assumed "escrow" tag and the mint |
| Handlers.Pda | contracts/programs/deal_platform/src/processor.rs:73 | `find_program_address(seeds, program_id).0`, through the derivation parameter shared with the client |
| Handlers.NewDeal | contracts/programs/deal_platform/src/processor.rs:173-183 | The deal CreateDeal writes: the arguments, `merchant = payer` and `minted = 0`; `Properties.CreateDealStores` states it is what the account holds |
| Handlers.AssertLen | contracts/programs/deal_platform/src/processor.rs:52-55 | Ok exactly when the string is at most `max` bytes, otherwise InvalidInput |
| Handlers.UnpackMerchant | contracts/programs/deal_platform/src/processor.rs:25-28 | `read_unpacked` prefix decode: Ok with the record exactly when the account's data starts with a merchant, otherwise InvalidInput |
| Handlers.UnpackDeal | contracts/programs/deal_platform/src/processor.rs:25-28 | The same for a deal |
| Handlers.UnpackListing | contracts/programs/deal_platform/src/processor.rs:515 | The exact listing decode, otherwise a Borsh I/O error |
| Handlers.RegisterMerchant | contracts/programs/deal_platform/src/processor.rs:57-95 | On success the merchant account is the signer's merchant PDA. No other account's data and no token balance changes |
| Handlers.SetCollectionMint | contracts/programs/deal_platform/src/processor.rs:97-118 | On success only the signer's merchant PDA changes |
| Handlers.CreateDeal | contracts/programs/deal_platform/src/processor.rs:120-202 | On success only the merchant PDA's and the deal account's data change, and no token balance |
| Handlers.CountDeal | contracts/programs/deal_platform/src/processor.rs:188-199 | The best-effort `total_deals` write changes only the merchant account's data, keeps its length and lamports, and changes nothing when the record does not decode |
| Handlers.MintCoupon | contracts/programs/deal_platform/src/processor.rs:204-240 | On success only the deal account changes |
| Handlers.RedeemCoupon | contracts/programs/deal_platform/src/processor.rs:242-277 | On success the log account is the mint's redeem PDA, and only its data changes |
| Handlers.AddReview | contracts/programs/deal_platform/src/processor.rs:279-328 | On success the review account is the (deal, signer) review PDA, and only its data changes |
| Handlers.VerifyAndCountMint | contracts/programs/deal_platform/src/processor.rs:330-362 | On success only the deal account changes |
| Handlers.RedeemAndBurn | contracts/programs/deal_platform/src/processor.rs:364-423 | On success the log account is the mint's redeem PDA, and only its data changes |
| Handlers.ListNft | contracts/programs/deal_platform/src/processor.rs:425-488 | On success the listing account is the (mint, seller) listing PDA, and only its data changes |
| Handlers.CloseListing | contracts/programs/deal_platform/src/processor.rs:549-551 | Fails with ArithmeticOverflow exactly when seller plus listing lamports overflow a `u64`. Otherwise the listing has 0 lamports and zeroed data, the seller gains the listing's lamports, and nothing else changes |
| Handlers.BuyNft | contracts/programs/deal_platform/src/processor.rs:490-555 | On success the listing is the (mint, seller) listing PDA and is left with 0 lamports and 80 zero bytes. No other account's data changes |
| Handlers.Apply | contracts/programs/deal_platform/src/processor.rs:30-50 | A failed instruction leaves every account as it was |
| Handlers.Process | contracts/programs/deal_platform/src/processor.rs:30-50 | Data that does not decode is InvalidInstruction (`Custom(0)`); a success always had decodable data |
| Handlers.Dispatch | contracts/programs/deal_platform/src/processor.rs:32-49 | Each variant goes to its own handler with its fields, the mint of VerifyAndCountMint ignored; `DispatchKeepsSupply` and `ProcessEncoded` state what it preserves and reaches |
| Properties.RegisterMerchantChecks | contracts/programs/deal_platform/src/processor.rs:63-75 | Over-long name or uri gives InvalidInput before any account is looked at. Then, in order: too few accounts, non-signer gives Unauthorized, wrong PDA gives PdaDerivationMismatch, non-empty target gives AlreadyInitialized |
| Properties.RegisterMerchantStores | contracts/programs/deal_platform/src/processor.rs:73-93 | A success found the PDA empty and funded it with rent for 308 bytes. It stores the merchant with `merchant = payer`, `total_deals = 0` and a zero `collection_mint` |
| Properties.RegisterMerchantOnce | contracts/programs/deal_platform/src/processor.rs:75 | While the signer's merchant PDA holds data, registration fails |
| Properties.RegisterTwiceFails | contracts/programs/deal_platform/src/processor.rs:75 | After one successful registration, any later one by the same signer fails |
| Properties.SetCollectionMintOnlyChangesMint | contracts/programs/deal_platform/src/processor.rs:106-116 | A success needs the signer's own merchant PDA. It changes only `collection_mint`: other fields, trailing bytes, lamports and all other accounts stay |
| Properties.NextTotal | contracts/programs/deal_platform/src/processor.rs:195 | `checked_add(1)` on `total_deals`: one more, or unchanged at `u32::MAX` |
| Properties.CreateDealStores | contracts/programs/deal_platform/src/processor.rs:143-199 | A success had a signer, an existing merchant record, and an empty deal PDA derived from (payer, `deal_id` as 8 LE bytes). It stores the deal with `merchant = payer` and `minted = 0`. A readable merchant record gets `total_deals` incremented, or left unchanged at `u32::MAX`, with nothing else in it changed |
| Properties.CreateDealOnce | contracts/programs/deal_platform/src/processor.rs:153 | While the deal PDA for (signer, deal id) holds data, CreateDeal fails |
| Properties.CreateDealRejects | contracts/programs/deal_platform/src/processor.rs:143-153 | With valid strings, a signer and the right merchant PDA: an empty merchant record is Unauthorized, a wrong deal PDA is PdaDerivationMismatch, and a deal PDA holding data is AlreadyInitialized |
| Properties.MintCouponOverflows | contracts/programs/deal_platform/src/processor.rs:233 | At `minted = u32::MAX` the mint is Overflow |
| Properties.MintCouponSoldOut | contracts/programs/deal_platform/src/processor.rs:233-234 | Below that, an incremented count above the supply is DealSoldOut |
| Properties.MintCouponOutcome | contracts/programs/deal_platform/src/processor.rs:229-236 | MintCouponNft succeeds exactly when `minted < total_supply`. Overflow comes only at `u32::MAX`, and DealSoldOut otherwise |
| Properties.MintCouponStores | contracts/programs/deal_platform/src/processor.rs:229-236 | Below the supply the stored deal has `minted + 1`. Every other field, the trailing bytes and all other accounts are unchanged |
| Properties.VerifyAndCountMintOutcome | contracts/programs/deal_platform/src/processor.rs:352-359 | DealSoldOut exactly when `minted >= total_supply`. Otherwise the stored deal has `minted + 1` and nothing else changes |
| Properties.MintPathsAgree | contracts/programs/deal_platform/src/processor.rs:229-236 | The two mint paths (processor.rs:229-236 and 352-359) succeed on the same inputs and then leave the same accounts |
| Properties.RedeemOnce | contracts/programs/deal_platform/src/processor.rs:254-256 | While the mint's redeem PDA holds data, both redeem instructions fail (processor.rs:254-256 and 400-402) |
| Properties.RedeemCouponRejectsRedeemed | contracts/programs/deal_platform/src/processor.rs:252-256 | For any signed RedeemCoupon naming the mint's redeem PDA, a log already there gives AlreadyRedeemed |
| Properties.RedeemAndBurnRejectsRedeemed | contracts/programs/deal_platform/src/processor.rs:377-402 | When the burn goes through and the redeem PDA already holds a log, RedeemAndBurn gives AlreadyRedeemed |
| Properties.RedeemCouponLogs | contracts/programs/deal_platform/src/processor.rs:252-275 | A success found the redeem PDA empty, funded it and logged (mint, signer, now) |
| Properties.RedeemAndBurnChecksMint | contracts/programs/deal_platform/src/processor.rs:377-378 | A mint account other than the argument is InvalidInput, before anything is burned |
| Properties.RedeemAndBurnLogs | contracts/programs/deal_platform/src/processor.rs:377-421 | A success burned one token of the mint from the signer's token account and logged (mint, signer, now) in the empty redeem PDA |
| Properties.AddReviewChecksInput | contracts/programs/deal_platform/src/processor.rs:286-287 | A rating outside 1..5 or a comment over 280 bytes is InvalidInput, whatever the accounts |
| Properties.AddReviewOnce | contracts/programs/deal_platform/src/processor.rs:305-307 | While the (deal PDA, user) review PDA holds data, AddReview fails, so the first review stays |
| Properties.AddReviewRejectsDuplicate | contracts/programs/deal_platform/src/processor.rs:286-307 | With valid input, a signer, a readable merchant and the right deal and review PDAs, a review PDA holding data gives AlreadyInitialized |
| Properties.AddReviewStores | contracts/programs/deal_platform/src/processor.rs:286-326 | A success stores user, deal PDA, rating, comment and the clock's time in the empty review PDA |
| Properties.ListNftChecks | contracts/programs/deal_platform/src/processor.rs:435-446 | In order: a missing signature, then price 0 (InvalidInput), then a wrong listing PDA (InvalidAccountData) |
| Properties.ListNftStores | contracts/programs/deal_platform/src/processor.rs:439-484 | A success created the listing PDA and moved one token from the seller into escrow (both accounts keep their mint and owner), leaving every other token account as it was. It stores (seller, mint, price, now) |
| Properties.BuyNftChecksSeller | contracts/programs/deal_platform/src/processor.rs:518 | A listing whose stored seller is not the passed seller is Unauthorized |
| Properties.CloseListingConserves | contracts/programs/deal_platform/src/processor.rs:549-551 | Seller plus listing lamports are conserved; the listing keeps none and its data is all zero |
| Properties.BuyNftSettles | contracts/programs/deal_platform/src/processor.rs:502-551 | The buyer paid the price to the seller, who also got the listing's lamports. The listing is left empty and zeroed, one token moved from escrow to buyer (both keep their mint and owner), and no other account and no other token account changed; the set of token accounts is kept |
| Properties.BuyNftOnce | contracts/programs/deal_platform/src/processor.rs:549-551 | A bought listing cannot be bought again from a real seller |
| Properties.ProcessRejectsMalformed | contracts/programs/deal_platform/src/processor.rs:31 | Data that does not decode is InvalidInstruction, and the accounts stay |
| Properties.ProcessEncoded | contracts/programs/deal_platform/src/processor.rs:30-50 | An encoded instruction reaches its own handler |
| Properties.ProcessKeepsSupply | contracts/programs/deal_platform/src/processor.rs:30-50 | Every instruction keeps `minted <= total_supply` for every deal account |
| Properties.DispatchKeepsSupply | contracts/programs/deal_platform/src/processor.rs:32-49 | Every handler keeps `minted <= total_supply` for every deal account |
| Properties.CreateDealKeepsSupply | contracts/programs/deal_platform/src/processor.rs:170-199 | CreateDeal keeps the supply invariant (a new deal has `minted = 0`) |
| Properties.MintCouponKeepsSupply | contracts/programs/deal_platform/src/processor.rs:233-234 | MintCouponNft keeps the supply invariant |
| Properties.VerifyAndCountMintKeepsSupply | contracts/programs/deal_platform/src/processor.rs:356-357 | VerifyAndCountMint keeps the supply invariant |
| Properties.RegisterMerchantKeepsDeal | contracts/programs/deal_platform/src/processor.rs:73-93 | Registration never touches a deal account |
| Properties.SetCollectionMintKeepsDeal | contracts/programs/deal_platform/src/processor.rs:107-116 | Setting the collection never touches a deal account |
| Properties.RedeemCouponKeepsDeal | contracts/programs/deal_platform/src/processor.rs:254-275 | Redemption never touches a deal account |
| Properties.AddReviewKeepsDeal | contracts/programs/deal_platform/src/processor.rs:305-326 | A review never touches a deal account |
| Properties.RedeemAndBurnKeepsDeal | contracts/programs/deal_platform/src/processor.rs:400-421 | Redeem-and-burn never touches a deal account |
| Properties.ListNftKeepsDeal | contracts/programs/deal_platform/src/processor.rs:439-484 | Listing never touches a deal account |
| Properties.BuyNftKeepsDeal | contracts/programs/deal_platform/src/processor.rs:505-551 | Buying never touches a deal account |
| Processor.Outcome | contracts/programs/deal_platform/src/processor.rs:30-50 | A handler's result with its accounts: the accounts count only on success |
| Processor.Ledger.constructor | contracts/programs/deal_platform/src/processor.rs:30 | The ledger holds the accounts it is given |
| Processor.Ledger.Serialize | contracts/programs/deal_platform/src/processor.rs:93 | Writes the bytes that fit into the account's buffer in place. Fails when the record does not fit |
| Processor.Ledger.CreateAccount | contracts/programs/deal_platform/src/processor.rs:79-90 | The System program's `create_account`, as `Runtime.CreateAccount` specifies it |
| Processor.Ledger.SystemTransfer | contracts/programs/deal_platform/src/processor.rs:521-524 | The System program's transfer, as `Runtime.SystemTransfer` specifies it |
| Processor.Ledger.TokenBurn | contracts/programs/deal_platform/src/processor.rs:381-397 | The token program's burn, as `Runtime.TokenBurn` specifies it |
| Processor.Ledger.TokenTransfer | contracts/programs/deal_platform/src/processor.rs:466-474 | The token program's transfer, as `Runtime.TokenTransfer` specifies it |
| Processor.Ledger.ProcessRegisterMerchant | contracts/programs/deal_platform/src/processor.rs:57-95 | Ends with the outcome and accounts `Handlers.RegisterMerchant` gives |
| Processor.Ledger.ProcessSetCollectionMint | contracts/programs/deal_platform/src/processor.rs:97-118 | Ends as `Handlers.SetCollectionMint` gives |
| Processor.Ledger.ProcessCreateDeal | contracts/programs/deal_platform/src/processor.rs:120-202 | Ends as `Handlers.CreateDeal` gives, the best-effort `total_deals` write included |
| Processor.Ledger.ProcessMintCoupon | contracts/programs/deal_platform/src/processor.rs:204-240 | Ends as `Handlers.MintCoupon` gives |
| Processor.Ledger.MintFromDeal | contracts/programs/deal_platform/src/processor.rs:228-237 | From the deal read on, ends as `Handlers.MintCoupon` gives |
| Processor.Ledger.ProcessRedeemCoupon | contracts/programs/deal_platform/src/processor.rs:242-277 | Ends as `Handlers.RedeemCoupon` gives |
| Processor.Ledger.ProcessAddReview | contracts/programs/deal_platform/src/processor.rs:279-328 | Ends as `Handlers.AddReview` gives |
| Processor.Ledger.ProcessVerifyAndCountMint | contracts/programs/deal_platform/src/processor.rs:330-362 | Ends as `Handlers.VerifyAndCountMint` gives |
| Processor.Ledger.CountFromDeal | contracts/programs/deal_platform/src/processor.rs:351-360 | From the deal read on, ends as `Handlers.VerifyAndCountMint` gives |
| Processor.Ledger.WriteCounted | contracts/programs/deal_platform/src/processor.rs:235-236 | Writing back a deal below its supply with one more minted is what both mint handlers do |
| Processor.Ledger.ProcessRedeemAndBurn | contracts/programs/deal_platform/src/processor.rs:364-423 | Ends as `Handlers.RedeemAndBurn` gives, the burn before the log checks included |
| Processor.Ledger.ProcessListNft | contracts/programs/deal_platform/src/processor.rs:425-488 | Ends as `Handlers.ListNft` gives |
| Processor.Ledger.ProcessBuyNft | contracts/programs/deal_platform/src/processor.rs:490-555 | Ends as `Handlers.BuyNft` gives |
| Processor.Ledger.CloseListing | contracts/programs/deal_platform/src/processor.rs:549-551 | The lamport move and zero-fill, as `Handlers.CloseListing` gives |
| Processor.Ledger.Process | contracts/programs/deal_platform/src/processor.rs:30-50 | Decodes and dispatches, ending as `Handlers.Process` gives |
| Processor.Ledger.Execute | contracts/programs/deal_platform/src/processor.rs:30-50 | Runs an instruction atomically: the accounts end as `Handlers.Apply` gives, and the result is Ok exactly when `Handlers.Process` succeeds |
| Client.IxData | frontend/src/lib/solana/instructions.ts:57 | The data is the IX tag followed by the schema's serialised arguments |
| Client.IxTag | frontend/src/lib/solana/instructions.ts:4-10 | The `IX` tag of each schema; `IxDataIsProgramEncoding` shows tags 0-4 are the program's variant indices |
| Client.SerializeArgs | frontend/src/lib/solana/instructions.ts:12-27 | The borsh-js serialisation of each schema's fields in order; `IxDataIsProgramEncoding` and `CreateDealDataRejected` relate it to the program's decoder |
| Client.IxDataIsProgramEncoding | frontend/src/lib/solana/instructions.ts:4-27 | Tags 0-4 are the program's variant indices. For every schema but CreateDeal, the client's bytes are exactly the program's encoding of the same instruction |
| Client.CreateDealDataRejected | frontend/src/lib/solana/instructions.ts:14-23 | The client's CreateDeal carries the right tag but lacks the two URIs, so the program cannot decode it |
| Client.U64LeBytes | frontend/src/lib/solana/instructions.ts:33-38 | `setBigUint64(0, n, true)` gives 8 bytes; `U64LeBytesIsBorsh` and `U64LeBytesRoundTrip` make them Borsh's `u64` |
| Client.U64LeBytesIsBorsh | frontend/src/lib/solana/instructions.ts:33-38 | `u64LeBytes(n)` is the 8-byte little-endian encoding the program uses |
| Client.U64LeBytesRoundTrip | frontend/src/lib/solana/instructions.ts:33-38 | Reading the 8 bytes back gives `n`, for every `n < 2^64` |
| Client.SeedsMatchProgram | frontend/src/lib/solana/instructions.ts:40-54 | The client's merchant, deal, review and redeem seed lists equal the program's (processor.rs:73, 151, 254, 305), so both derive the same deal PDA |
| Client.MerchantPdaSeeds | frontend/src/lib/solana/instructions.ts:40-42 | "merchant" and the merchant key; `SeedsMatchProgram` shows the program uses the same list |
| Client.DealPdaSeeds | frontend/src/lib/solana/instructions.ts:44-46 | "deal", the merchant key and the deal id as 8 LE bytes; equal to the program's list by `SeedsMatchProgram` |
| Client.ReviewPdaSeeds | frontend/src/lib/solana/instructions.ts:48-50 | "review", the deal PDA and the user; equal to the program's list by `SeedsMatchProgram` |
| Client.RedeemPdaSeeds | frontend/src/lib/solana/instructions.ts:52-54 | "redeem" and the mint; equal to the program's list by `SeedsMatchProgram` |
| Client.DerivePda | frontend/src/lib/solana/instructions.ts:40-54 | `findProgramAddressSync(seeds, programId)[0]` with the derivation as a parameter, the same one the program uses |
| Client.IxRegisterMerchant | frontend/src/lib/solana/instructions.ts:56-67 | The data is the program's RegisterMerchant encoding. Accounts are payer (only signer, writable), merchant PDA (writable), System program |
| Client.IxCreateDeal | frontend/src/lib/solana/instructions.ts:69-81 | The data does not decode. Accounts are payer (only signer), merchant PDA and deal PDA (both writable), System program |
| Client.IxMintCoupon | frontend/src/lib/solana/instructions.ts:83-94 | The data is MintCouponNft's encoding. Accounts are user (only signer), merchant PDA (read-only), deal PDA (writable) |
| Client.IxRedeem | frontend/src/lib/solana/instructions.ts:96-107 | The data is RedeemCoupon's encoding, with the mint as 32 raw bytes. Accounts are user (only signer), redeem PDA (writable), System program |
| Client.IxAddReview | frontend/src/lib/solana/instructions.ts:109-122 | The data is AddReview's encoding. Accounts are user (only signer), merchant, deal, review PDA and System program, in the handler's order |
| Client.RegisterMerchantFromClient | frontend/src/lib/solana/instructions.ts:56-67 | The client's registration reaches RegisterMerchant with the signer and PDA checks passed |
| Client.CreateDealFromClient | frontend/src/lib/solana/instructions.ts:69-81 | The client's CreateDeal always fails with InvalidInstruction and changes nothing |
| Client.MintCouponFromClient | frontend/src/lib/solana/instructions.ts:83-94 | With the deal PDA the client derives, a mint succeeds exactly when `minted < total_supply`. It then changes only accounts the client marks writable |
| Client.RedeemFromClient | frontend/src/lib/solana/instructions.ts:96-107 | The client's redemption reaches RedeemCoupon with its PDA check passed. It is AlreadyRedeemed once the log holds data |
| Client.AddReviewFromClient | frontend/src/lib/solana/instructions.ts:109-122 | The client's review reaches AddReview with the deal and review PDA checks passed |
| ClientErrors.TableCoversProgramCodes | frontend/src/lib/solana/errors.ts:2-11 | The table has an entry exactly for codes 0-7, which covers every code the program's errors convert to |
| ClientErrors.MeaningsAgree | frontend/src/lib/solana/errors.ts:2-11 | Each entry says what the program's `#[error]` text (error.rs:6-21) says: five of those texts open their entry, and the key words of the other three appear in their entry in order |
| ClientErrors.InvalidInstructionAgrees | frontend/src/lib/solana/errors.ts:3 | "Invalid instruction" opens entry 0 |
| ClientErrors.PdaDerivationMismatchAgrees | frontend/src/lib/solana/errors.ts:4 | "mismatch" and then "PDA derivation" appear in entry 1 |
| ClientErrors.MismatchAgrees | frontend/src/lib/solana/errors.ts:4 | "mismatch" appears in entry 1 at offset 16 |
| ClientErrors.PdaDerivationAgrees | frontend/src/lib/solana/errors.ts:4 | "PDA derivation" appears in entry 1 at offset 37 |
| ClientErrors.AlreadyInitializedAgrees | frontend/src/lib/solana/errors.ts:5 | "already" and then "initialized" appear in entry 2 |
| ClientErrors.OverflowAgrees | frontend/src/lib/solana/errors.ts:6 | "Math overflow" opens entry 3 |
| ClientErrors.UnauthorizedAgrees | frontend/src/lib/solana/errors.ts:7 | "Unauthorized" opens entry 4 |
| ClientErrors.DealSoldOutAgrees | frontend/src/lib/solana/errors.ts:8 | "Deal sold out" opens entry 5 |
| ClientErrors.AlreadyRedeemedAgrees | frontend/src/lib/solana/errors.ts:9 | "already" and then "redeemed" appear in entry 6 |
| ClientErrors.InvalidInputAgrees | frontend/src/lib/solana/errors.ts:10 | "Invalid input" opens entry 7 |
| ClientErrors.Hex | frontend/src/lib/solana/errors.ts:23 | `toString(16)` writes at least one digit |
| ClientErrors.HexRoundTrip | frontend/src/lib/solana/errors.ts:23 | The hexadecimal text reads back as the number and has no leading zero |
| ClientErrors.SmallCodeDigits | frontend/src/lib/solana/errors.ts:20-23 | Below ten, the decimal and hexadecimal digit coincide |
| ClientErrors.DigitRun | frontend/src/lib/solana/errors.ts:18 | `\d+` captures the longest run of digits at the position |
| ClientErrors.MatchAt | frontend/src/lib/solana/errors.ts:18 | A match needs the whole prefix "custom program error: " (any letter case) |
| ClientErrors.FindCode | frontend/src/lib/solana/errors.ts:18 | The leftmost match of the pattern and its digits read in decimal; `FindCodeFirst` states it |
| ClientErrors.ErrorString | frontend/src/lib/solana/errors.ts:15 | `error?.message || error?.toString() || ''`: the message when it is non-empty, otherwise the text |
| ClientErrors.ParseContractError | frontend/src/lib/solana/errors.ts:13-53 | Whatever was thrown, the message shown is never empty; `CustomCodeFirst`, `SimulationFailureOrder` and `VerbatimWhenShort` state its branches in order |
| ClientErrors.FindCodeFirst | frontend/src/lib/solana/errors.ts:18 | The search returns the leftmost match |
| ClientErrors.CustomCodeFirst | frontend/src/lib/solana/errors.ts:18-26 | A custom-program-error match decides the result before any other check: table entry plus " (Error code: 0x<hex>)", or "Contract error (code 0x<hex>)" for unknown codes |
| ClientErrors.ProgramErrorReported | frontend/src/lib/solana/errors.ts:18-24 | The program's error, as the runtime prints it, comes back as its table entry with its code |
| ClientErrors.HexLookingCodeReadAsDecimal | frontend/src/lib/solana/errors.ts:18-25 | "custom program error: 0x10" is read as decimal 10 and reported as unknown code 0xa |
| ClientErrors.SimulationFailureOrder | frontend/src/lib/solana/errors.ts:29-37 | Within a simulation failure, "insufficient" wins over "Blockhash not found", and anything else gets the generic message |
| ClientErrors.VerbatimWhenShort | frontend/src/lib/solana/errors.ts:47-52 | An unclassified message is returned verbatim exactly when its length is between 1 and 199. Otherwise the result is "An unexpected error occurred" |
| ClientErrors.ExplorerUrl | frontend/src/lib/solana/errors.ts:55-57 | The explorer link of a signature on a cluster; `ExplorerUrlInjective` shows both can be read back |
| ClientErrors.DefaultExplorerUrl | frontend/src/lib/solana/errors.ts:55 | The link with the default cluster; `DefaultIsDevnet` shows it is devnet |
| ClientErrors.ExplorerUrlInjective | frontend/src/lib/solana/errors.ts:55-57 | Distinct (signature, cluster) pairs give distinct links |
| ClientErrors.DefaultIsDevnet | frontend/src/lib/solana/errors.ts:55-57 | The default cluster is devnet, and the signature appears verbatim in the link |
| ClientErrors.ShortTxSignature | frontend/src/lib/solana/errors.ts:59-62 | Identity up to 16 characters. Otherwise 19 characters: the first 8, "...", then the last 8 |
| ClientErrors.ShortTxSignatureFixed | frontend/src/lib/solana/errors.ts:59-62 | The signatures left unchanged are exactly those of at most 16 characters and the 19-character ones with "..." in the middle; shortening twice is shortening once |

## Left out

- PDA derivation (`find_program_address`, `findProgramAddressSync`) is an opaque function parameter (`Env.derive`), with no hashing and no bump search. The supply invariant assumes only that the deal key it follows cannot be derived from any other seed tag, not that derivation is injective everywhere.
- The System and SPL Token programs are abstract effects on lamport and token-balance maps. Mint supply, account owners, delegates and their own error codes are not modelled: any failure of theirs is one error value.
- Lamport and token balances are unbounded naturals. Every credit the program and the System and SPL Token calls make is checked against `u64::MAX`, as the code and those programs do, but a starting state holding 2^64 or more is not ruled out.
- Four things the processor relies on are defined in no source file of this model, so the model assumes them:
  - the tags `seeds::LISTING` = "listing" and `seeds::ESCROW` = "escrow" (processor.rs:440, 527);
  - `Listing::space()` = 80, the size of the record written at processor.rs:478-483 (processor.rs:450);
  - the field positions of `collection_mint` after `total_deals` and of `image_uri`, `metadata_uri` after `minted`, taken from the order of the struct literals at processor.rs:92 and 173-183.

  `State.SeedTagsDistinct`, and through it `Properties.ListNftKeepsDeal`, `Properties.BuyNftKeepsDeal` and `Properties.ProcessKeepsSupply`, depend on the tags. BuyNft's exact listing decode (`State.DecodeListing`, `Properties.BuyNftSettles`, `Properties.BuyNftOnce`) depends on the size. The merchant and deal layouts and their round-trip lemmas depend on the field positions.
- `Rent::get` and `Clock::get` are the parameters `Env.rent` and `Env.now`.
- The runtime's own checks are not modelled: account ownership, writability, signer privileges of PDAs, rent exemption, and lamport sums across the transaction. Neither is the removal of zero-lamport accounts at the end of a transaction, so a bought listing stays as 80 zero bytes and cannot be listed again in the model.
- `msg!` logging is left out.
- Concurrency and transaction scheduling are left out: each instruction applies atomically, one at a time.
- The overflow check that VerifyAndCountMint makes after its supply check (processor.rs:357) is modelled as written. `Properties.VerifyAndCountMintOutcome` shows it is never taken, because `minted < total_supply <= u32::MAX` there.
- The best-effort merchant write in CreateDeal (processor.rs:197) discards its result. The model writes the bytes that fit and keeps going, as the code does.
- The frontend's `parseContractError` reads `error?.message || error?.toString()`. The thrown value is the datatype `JsError` (nothing, or a message and its `toString()` text); JavaScript's property lookup and coercions are not modelled.
- ClientErrors: strings are sequences of characters. JavaScript's UTF-16 code units, `parseInt` precision beyond 2^53 and Unicode case folding (beyond ASCII) are not modelled.
- Client: borsh-js throwing on out-of-range arguments is not modelled; the builders' arguments are typed within their ranges.
- Client.IxRedeem and Client.IxAddReview mark the user read-only although the handlers debit rent from the user. In practice the fee payer is merged in as writable by the wallet library; the model states the flags as the builders write them.
- React pages and components, the upload API, the Metaplex SDK calls, the command-line tool and the test suite are not part of this model.
