/**
 * The web client's instruction builder: the `IX` tag table, the Borsh
 * argument schemas, `u64LeBytes`, the `derive*Pda` seed lists and the `ix*`
 * builders, each returning the instruction data and the ordered account list
 * with signer and writable flags.
 *
 * Each builder is checked against the program: the data it produces is what
 * the program decodes (or, for CreateDeal, is rejected), the PDAs it derives
 * are the ones the handler re-derives, and the accounts come in the order the
 * handler takes them.
 */
module Client {
  import opened Borsh
  import opened State
  import opened Errors
  import opened Runtime
  import Instruction
  import Handlers
  import Properties

  // ---------------------------------------------------------------------------
  // The IX tag table

  const IX_REGISTER_MERCHANT: byte := 0
  const IX_CREATE_DEAL: byte := 1
  const IX_MINT_COUPON: byte := 2
  const IX_REDEEM_COUPON: byte := 3
  const IX_ADD_REVIEW: byte := 4

  // ---------------------------------------------------------------------------
  // Argument schemas and their Borsh serialization

  /** The values the client serializes, one constructor per schema. */
  datatype ClientArgs =
    | RegisterMerchantArgs(name: Text, uri: Text)
    | CreateDealArgs(dealId: u64, title: Text, description: Text, discountPercent: u8, expiry: i64,
                     totalSupply: u32)
    | MintCouponArgs(dealId: u64)
    | RedeemCouponArgs(mint: Pubkey)
    | AddReviewArgs(dealId: u64, rating: u8, comment: Text)

  /** `borsh.serialize(schema, value)`: the schema's fields in order; `[u8; 32]` verbatim. */
  function SerializeArgs(a: ClientArgs): seq<byte>
  {
    match a
    case RegisterMerchantArgs(name, uri) => EncodeString(name) + EncodeString(uri)
    case CreateDealArgs(id, title, desc, discount, expiry, supply) =>
      EncodeU64(id) + EncodeString(title) + EncodeString(desc) + EncodeU8(discount)
        + EncodeI64(expiry) + EncodeU32(supply)
    case MintCouponArgs(id) => EncodeU64(id)
    case RedeemCouponArgs(mint) => mint
    case AddReviewArgs(id, rating, comment) => EncodeU64(id) + EncodeU8(rating) + EncodeString(comment)
  }

  /** The IX tag the builder of each schema puts in front of it. */
  function IxTag(a: ClientArgs): byte
  {
    match a
    case RegisterMerchantArgs(_, _) => IX_REGISTER_MERCHANT
    case CreateDealArgs(_, _, _, _, _, _) => IX_CREATE_DEAL
    case MintCouponArgs(_) => IX_MINT_COUPON
    case RedeemCouponArgs(_) => IX_REDEEM_COUPON
    case AddReviewArgs(_, _, _) => IX_ADD_REVIEW
  }

  /** `Buffer.concat([Buffer.from([IX.X]), serialize(schema, args)])`. */
  function IxData(a: ClientArgs): (r: seq<byte>)
    ensures |r| >= 1 && r[0] == IxTag(a) && r[1..] == SerializeArgs(a)
  {
    [IxTag(a)] + SerializeArgs(a)
  }

  /** The program instruction a schema stands for; CreateDeal has none, its URIs are missing. */
  function ProgramInstruction(a: ClientArgs): Option<Instruction.DealInstruction>
  {
    match a
    case RegisterMerchantArgs(name, uri) => Some(Instruction.RegisterMerchant(name, uri))
    case CreateDealArgs(_, _, _, _, _, _) => None
    case MintCouponArgs(id) => Some(Instruction.MintCouponNft(id))
    case RedeemCouponArgs(mint) => Some(Instruction.RedeemCoupon(mint))
    case AddReviewArgs(id, rating, comment) => Some(Instruction.AddReview(id, rating, comment))
  }

  /**
   * The client's tags 0 to 4 are the program's variant indices, and for every
   * schema but CreateDeal the client's bytes are exactly the program's
   * encoding of the same instruction.
   */
  lemma IxDataIsProgramEncoding(a: ClientArgs)
    requires !a.CreateDealArgs?
    ensures ProgramInstruction(a).Some?
    ensures IxTag(a) == Instruction.Tag(ProgramInstruction(a).value)
    ensures IxData(a) == Instruction.Encode(ProgramInstruction(a).value)
  {
    var ix := ProgramInstruction(a).value;
    match a
    case RegisterMerchantArgs(name, uri) =>
      assert Instruction.EncodePayload(ix) == SerializeArgs(a);
    case MintCouponArgs(id) =>
      assert Instruction.EncodePayload(ix) == SerializeArgs(a);
    case RedeemCouponArgs(mint) =>
      assert Instruction.EncodePayload(ix) == SerializeArgs(a);
    case AddReviewArgs(id, rating, comment) =>
      assert Instruction.EncodePayload(ix) == SerializeArgs(a);
  }

  /** The tag byte is CreateDeal's, but the two URI strings the program reads next are not there. */
  lemma CreateDealDataRejected(a: ClientArgs)
    requires a.CreateDealArgs?
    ensures IxData(a)[0] == Instruction.Tag(Instruction.CreateDeal(a.dealId, a.title, a.description,
              a.discountPercent, a.expiry, a.totalSupply, [], []))
    ensures Instruction.Decode(IxData(a)) == None
  {
    var e0, e1, e2 := EncodeU64(a.dealId), EncodeString(a.title), EncodeString(a.description);
    var e3, e4, e5 := EncodeU8(a.discountPercent), EncodeI64(a.expiry), EncodeU32(a.totalSupply);
    var s := IxData(a)[1..];
    assert s == e0 + (e1 + (e2 + (e3 + (e4 + (e5 + [])))));
    ReadU64Encode(a.dealId, e1 + (e2 + (e3 + (e4 + (e5 + [])))));
    ReadStringEncode(a.title, e2 + (e3 + (e4 + (e5 + []))));
    ReadStringEncode(a.description, e3 + (e4 + (e5 + [])));
    ReadU8Encode(a.discountPercent, e4 + (e5 + []));
    ReadI64Encode(a.expiry, e5 + []);
    ReadU32Encode(a.totalSupply, []);
    assert Instruction.ReadCreateDeal(s) == None;
  }

  // ---------------------------------------------------------------------------
  // u64LeBytes

  /** `n >> 8i`: `n` shifted right by `i` whole bytes. */
  function ShiftBytes(n: nat, i: nat): (r: nat)
    ensures r <= n
  {
    if i == 0 then n else ShiftBytes(n / 256, i - 1)
  }

  /** `DataView.setBigUint64(0, n, true)` on a fresh 8-byte buffer: byte `i` is `(n >> 8i) & 0xff`. */
  function U64LeBytes(n: u64): (r: seq<byte>)
    ensures |r| == 8
  {
    seq(8, i requires 0 <= i < 8 => ShiftBytes(n, i) % 256)
  }

  /** Byte `i` of the `width` little-endian bytes of `n` is `(n >> 8i) & 0xff`. */
  lemma {:induction false} LeBytesAt(n: nat, width: nat, i: nat)
    requires n < Pow256(width) && i < width
    ensures LeBytes(n, width)[i] == ShiftBytes(n, i) % 256
  {
    if i > 0 {
      LeBytesAt(n / 256, width - 1, i - 1);
      assert LeBytes(n, width)[i] == LeBytes(n / 256, width - 1)[i - 1];
    }
  }

  /** The client's seed bytes for a deal id are the program's Borsh `u64`. */
  lemma U64LeBytesIsBorsh(n: u64)
    ensures U64LeBytes(n) == EncodeU64(n)
  {
    Pow256Values();
    forall i | 0 <= i < 8
      ensures U64LeBytes(n)[i] == EncodeU64(n)[i]
    {
      LeBytesAt(n, 8, i);
    }
  }

  /** Reading the eight bytes back as a little-endian `u64` gives `n`, whatever follows them. */
  lemma U64LeBytesRoundTrip(n: u64, rest: seq<byte>)
    ensures LeValue(U64LeBytes(n)) == n
    ensures ReadU64(U64LeBytes(n) + rest) == Some((n, rest))
  {
    U64LeBytesIsBorsh(n);
    Pow256Values();
    LeValueOfLeBytes(n, 8);
    ReadU64Encode(n, rest);
  }

  // ---------------------------------------------------------------------------
  // PDA derivation

  function MerchantPdaSeeds(merchant: Pubkey): seq<seq<byte>> { [Ascii("merchant"), merchant] }
  function DealPdaSeeds(merchant: Pubkey, dealId: u64): seq<seq<byte>> { [Ascii("deal"), merchant, U64LeBytes(dealId)] }
  function ReviewPdaSeeds(dealPda: Pubkey, user: Pubkey): seq<seq<byte>> { [Ascii("review"), dealPda, user] }
  function RedeemPdaSeeds(mint: Pubkey): seq<seq<byte>> { [Ascii("redeem"), mint] }

  /** `findProgramAddressSync(seeds, programId)[0]`, with the derivation given as a parameter. */
  function DerivePda(derive: (seq<seq<byte>>, Pubkey) -> Pubkey, programId: Pubkey, seeds: seq<seq<byte>>): Pubkey
  {
    derive(seeds, programId)
  }

  /**
   * The client derives each PDA from the seeds the program uses, in the same
   * order, so with the same program id and derivation it finds the same
   * address the handler checks against.
   */
  lemma SeedsMatchProgram(env: Env, merchant: Pubkey, dealId: u64, dealPda: Pubkey, user: Pubkey, mint: Pubkey)
    ensures MerchantPdaSeeds(merchant) == Handlers.MerchantSeeds(merchant)
    ensures DealPdaSeeds(merchant, dealId) == Handlers.DealSeeds(merchant, dealId)
    ensures ReviewPdaSeeds(dealPda, user) == Handlers.ReviewSeeds(dealPda, user)
    ensures RedeemPdaSeeds(mint) == Handlers.RedeemSeeds(mint)
    ensures DerivePda(env.derive, env.programId, DealPdaSeeds(merchant, dealId))
         == Handlers.Pda(env, Handlers.DealSeeds(merchant, dealId))
  {
    U64LeBytesIsBorsh(dealId);
  }

  // ---------------------------------------------------------------------------
  // Builders

  datatype TransactionInstruction = TransactionInstruction(programId: Pubkey, keys: seq<AccountMeta>, data: seq<byte>)

  /** Exactly one account signs, and it is the first. */
  predicate OneSignerFirst(keys: seq<AccountMeta>)
  {
    |keys| >= 1 && keys[0].isSigner && forall i :: 1 <= i < |keys| ==> !keys[i].isSigner
  }

  function IxRegisterMerchant(programId: Pubkey, payer: Pubkey, merchantPda: Pubkey, name: Text, uri: Text)
    : (r: TransactionInstruction)
    ensures r.data == Instruction.Encode(Instruction.RegisterMerchant(name, uri))
    ensures OneSignerFirst(r.keys) && |r.keys| == 3
    ensures r.keys[0].key == payer && r.keys[1].key == merchantPda && r.keys[2].key == SYSTEM_PROGRAM_ID
    ensures r.keys[0].isWritable && r.keys[1].isWritable && !r.keys[2].isWritable
  {
    IxDataIsProgramEncoding(RegisterMerchantArgs(name, uri));
    TransactionInstruction(programId,
      [AccountMeta(payer, true, true), AccountMeta(merchantPda, false, true), AccountMeta(SYSTEM_PROGRAM_ID, false, false)],
      IxData(RegisterMerchantArgs(name, uri)))
  }

  function IxCreateDeal(programId: Pubkey, payer: Pubkey, merchantPda: Pubkey, dealPda: Pubkey,
                        dealId: u64, title: Text, description: Text, discountPercent: u8, expiry: i64, totalSupply: u32)
    : (r: TransactionInstruction)
    ensures Instruction.Decode(r.data) == None
    ensures OneSignerFirst(r.keys) && |r.keys| == 4
    ensures r.keys[0].key == payer && r.keys[1].key == merchantPda && r.keys[2].key == dealPda
            && r.keys[3].key == SYSTEM_PROGRAM_ID
    ensures r.keys[0].isWritable && r.keys[1].isWritable && r.keys[2].isWritable && !r.keys[3].isWritable
  {
    var a := CreateDealArgs(dealId, title, description, discountPercent, expiry, totalSupply);
    CreateDealDataRejected(a);
    TransactionInstruction(programId,
      [AccountMeta(payer, true, true), AccountMeta(merchantPda, false, true), AccountMeta(dealPda, false, true),
       AccountMeta(SYSTEM_PROGRAM_ID, false, false)],
      IxData(a))
  }

  function IxMintCoupon(programId: Pubkey, user: Pubkey, merchantPda: Pubkey, dealPda: Pubkey, dealId: u64)
    : (r: TransactionInstruction)
    ensures r.data == Instruction.Encode(Instruction.MintCouponNft(dealId))
    ensures OneSignerFirst(r.keys) && |r.keys| == 3
    ensures r.keys[0].key == user && r.keys[1].key == merchantPda && r.keys[2].key == dealPda
    ensures !r.keys[0].isWritable && !r.keys[1].isWritable && r.keys[2].isWritable
  {
    IxDataIsProgramEncoding(MintCouponArgs(dealId));
    TransactionInstruction(programId,
      [AccountMeta(user, true, false), AccountMeta(merchantPda, false, false), AccountMeta(dealPda, false, true)],
      IxData(MintCouponArgs(dealId)))
  }

  function IxRedeem(programId: Pubkey, user: Pubkey, redeemPda: Pubkey, mint: Pubkey): (r: TransactionInstruction)
    ensures r.data == Instruction.Encode(Instruction.RedeemCoupon(mint))
    ensures r.data[1..] == mint
    ensures OneSignerFirst(r.keys) && |r.keys| == 3
    ensures r.keys[0].key == user && r.keys[1].key == redeemPda && r.keys[2].key == SYSTEM_PROGRAM_ID
    ensures !r.keys[0].isWritable && r.keys[1].isWritable && !r.keys[2].isWritable
  {
    IxDataIsProgramEncoding(RedeemCouponArgs(mint));
    TransactionInstruction(programId,
      [AccountMeta(user, true, false), AccountMeta(redeemPda, false, true), AccountMeta(SYSTEM_PROGRAM_ID, false, false)],
      IxData(RedeemCouponArgs(mint)))
  }

  function IxAddReview(programId: Pubkey, user: Pubkey, merchantPda: Pubkey, dealPda: Pubkey, reviewPda: Pubkey,
                       dealId: u64, rating: u8, comment: Text): (r: TransactionInstruction)
    ensures r.data == Instruction.Encode(Instruction.AddReview(dealId, rating, comment))
    ensures OneSignerFirst(r.keys) && |r.keys| == 5
    ensures r.keys[0].key == user && r.keys[1].key == merchantPda && r.keys[2].key == dealPda
            && r.keys[3].key == reviewPda && r.keys[4].key == SYSTEM_PROGRAM_ID
    ensures !r.keys[0].isWritable && !r.keys[1].isWritable && !r.keys[2].isWritable
            && r.keys[3].isWritable && !r.keys[4].isWritable
  {
    IxDataIsProgramEncoding(AddReviewArgs(dealId, rating, comment));
    TransactionInstruction(programId,
      [AccountMeta(user, true, false), AccountMeta(merchantPda, false, false), AccountMeta(dealPda, false, false),
       AccountMeta(reviewPda, false, true), AccountMeta(SYSTEM_PROGRAM_ID, false, false)],
      IxData(AddReviewArgs(dealId, rating, comment)))
  }

  // ---------------------------------------------------------------------------
  // Builders against the program

  /** Every account whose state differs between `c` and `c2` is listed and marked writable. */
  ghost predicate WritesMarked(c: Chain, c2: Chain, keys: seq<AccountMeta>)
  {
    forall k :: Get(c2, k) != Get(c, k) ==> exists i :: 0 <= i < |keys| && keys[i].key == k && keys[i].isWritable
  }

  /**
   * A registration built with the client's own merchant PDA reaches
   * RegisterMerchant with the signer and PDA checks passed, so it succeeds
   * or fails on the name, the uri and the account's state alone.
   */
  lemma RegisterMerchantFromClient(env: Env, c: Chain, payer: Pubkey, name: Text, uri: Text)
    ensures var ix := IxRegisterMerchant(env.programId, payer,
                        DerivePda(env.derive, env.programId, MerchantPdaSeeds(payer)), name, uri);
      Handlers.Process(env, c, ix.keys, ix.data) == Handlers.RegisterMerchant(env, c, ix.keys, name, uri)
      && ix.keys[0].isSigner && ix.keys[1].key == Handlers.Pda(env, Handlers.MerchantSeeds(ix.keys[0].key))
  {
    var ix := IxRegisterMerchant(env.programId, payer,
                DerivePda(env.derive, env.programId, MerchantPdaSeeds(payer)), name, uri);
    Properties.ProcessEncoded(env, c, ix.keys, Instruction.RegisterMerchant(name, uri));
  }

  /** Whatever the accounts, the client's CreateDeal is InvalidInstruction and changes nothing. */
  lemma CreateDealFromClient(env: Env, c: Chain, payer: Pubkey, merchantPda: Pubkey, dealPda: Pubkey,
                             dealId: u64, title: Text, description: Text, discountPercent: u8, expiry: i64,
                             totalSupply: u32)
    ensures var ix := IxCreateDeal(env.programId, payer, merchantPda, dealPda,
                                   dealId, title, description, discountPercent, expiry, totalSupply);
      Handlers.Process(env, c, ix.keys, ix.data) == Fail(Custom(0))
      && Handlers.Apply(env, c, ix.keys, ix.data) == c
  {
    var ix := IxCreateDeal(env.programId, payer, merchantPda, dealPda,
                           dealId, title, description, discountPercent, expiry, totalSupply);
    Properties.ProcessRejectsMalformed(env, c, ix.keys, ix.data);
  }

  /**
   * A mint built with the deal PDA the client derives from the merchant
   * recorded at `merchantPda` passes every account check, so it succeeds
   * exactly when the deal has minted fewer coupons than its supply; it then
   * changes only the deal account, which the client marks writable.
   */
  lemma MintCouponFromClient(env: Env, c: Chain, user: Pubkey, merchantPda: Pubkey, dealId: u64)
    requires Handlers.UnpackMerchant(c, merchantPda).Ok?
    requires var dealPda := DerivePda(env.derive, env.programId,
                              DealPdaSeeds(Handlers.UnpackMerchant(c, merchantPda).value.merchant, dealId));
      Handlers.UnpackDeal(c, dealPda).Ok?
    ensures var dealPda := DerivePda(env.derive, env.programId,
                             DealPdaSeeds(Handlers.UnpackMerchant(c, merchantPda).value.merchant, dealId));
      var ix := IxMintCoupon(env.programId, user, merchantPda, dealPda, dealId);
      var d := Handlers.UnpackDeal(c, dealPda).value;
      var r := Handlers.Process(env, c, ix.keys, ix.data);
      (r.Ok? <==> d.minted < d.totalSupply)
      && (r.Ok? ==> WritesMarked(c, r.value, ix.keys))
  {
    var authority := Handlers.UnpackMerchant(c, merchantPda).value.merchant;
    var dealPda := DerivePda(env.derive, env.programId, DealPdaSeeds(authority, dealId));
    var ix := IxMintCoupon(env.programId, user, merchantPda, dealPda, dealId);
    SeedsMatchProgram(env, authority, dealId, dealPda, user, merchantPda);
    assert Properties.MintReachesDeal(env, c, ix.keys, dealId);
    Properties.ProcessEncoded(env, c, ix.keys, Instruction.MintCouponNft(dealId));
    Properties.MintCouponOutcome(env, c, ix.keys, dealId);
    var r := Handlers.Process(env, c, ix.keys, ix.data);
    if r.Ok? {
      forall k | Get(r.value, k) != Get(c, k)
        ensures exists i :: 0 <= i < |ix.keys| && ix.keys[i].key == k && ix.keys[i].isWritable
      {
        assert ix.keys[2].key == k;
      }
    }
  }

  /**
   * A redemption built with the client's redeem PDA for `mint` reaches
   * RedeemCoupon with the PDA check passed: it records the redemption if the
   * log is still empty and is AlreadyRedeemed otherwise.
   */
  lemma RedeemFromClient(env: Env, c: Chain, user: Pubkey, mint: Pubkey)
    ensures var ix := IxRedeem(env.programId, user, DerivePda(env.derive, env.programId, RedeemPdaSeeds(mint)), mint);
      Handlers.Process(env, c, ix.keys, ix.data) == Handlers.RedeemCoupon(env, c, ix.keys, mint)
      && ix.keys[0].isSigner && ix.keys[1].key == Handlers.Pda(env, Handlers.RedeemSeeds(mint))
      && (|Get(c, ix.keys[1].key).data| > 0 ==> Handlers.Process(env, c, ix.keys, ix.data) == Fail(Custom(6)))
  {
    var ix := IxRedeem(env.programId, user, DerivePda(env.derive, env.programId, RedeemPdaSeeds(mint)), mint);
    Properties.ProcessEncoded(env, c, ix.keys, Instruction.RedeemCoupon(mint));
  }

  /**
   * A review built with the deal PDA derived from the merchant recorded at
   * `merchantPda` and the review PDA of (deal PDA, user) reaches AddReview
   * with both PDA checks passed, the accounts in the order it takes them.
   */
  lemma AddReviewFromClient(env: Env, c: Chain, user: Pubkey, merchantPda: Pubkey, dealId: u64, rating: u8,
                            comment: Text)
    requires Handlers.UnpackMerchant(c, merchantPda).Ok?
    ensures var dealPda := DerivePda(env.derive, env.programId,
                             DealPdaSeeds(Handlers.UnpackMerchant(c, merchantPda).value.merchant, dealId));
      var reviewPda := DerivePda(env.derive, env.programId, ReviewPdaSeeds(dealPda, user));
      var ix := IxAddReview(env.programId, user, merchantPda, dealPda, reviewPda, dealId, rating, comment);
      Handlers.Process(env, c, ix.keys, ix.data) == Handlers.AddReview(env, c, ix.keys, dealId, rating, comment)
      && ix.keys[0].isSigner
      && ix.keys[2].key == Handlers.Pda(env, Handlers.DealSeeds(Handlers.UnpackMerchant(c, ix.keys[1].key).value.merchant, dealId))
      && ix.keys[3].key == Handlers.Pda(env, Handlers.ReviewSeeds(ix.keys[2].key, ix.keys[0].key))
  {
    var authority := Handlers.UnpackMerchant(c, merchantPda).value.merchant;
    var dealPda := DerivePda(env.derive, env.programId, DealPdaSeeds(authority, dealId));
    var reviewPda := DerivePda(env.derive, env.programId, ReviewPdaSeeds(dealPda, user));
    var ix := IxAddReview(env.programId, user, merchantPda, dealPda, reviewPda, dealId, rating, comment);
    SeedsMatchProgram(env, authority, dealId, dealPda, user, merchantPda);
    Properties.ProcessEncoded(env, c, ix.keys, Instruction.AddReview(dealId, rating, comment));
  }
}
