/**
 * The part of the Solana runtime the program touches: accounts with lamports
 * and data, the account list an instruction receives, program results, the
 * borrowed-buffer serialization the handlers write records with, and the
 * effects of the System program (create_account, transfer) and SPL Token
 * program (burn, transfer) calls the handlers make.
 *
 * A key that is not in the account map is an account with no lamports and no
 * data, which is what the runtime hands a program for an address nobody has
 * funded yet.
 */
module Runtime {
  import opened Borsh
  import opened Errors

  datatype Account = Account(lamports: nat, data: seq<byte>)

  /** An SPL token account: which mint it holds, who may move its tokens, and how many it holds. */
  datatype TokenAccount = TokenAccount(mint: Pubkey, owner: Pubkey, amount: nat)

  /** Everything an instruction can read or change. */
  datatype Chain = Chain(accounts: map<Pubkey, Account>, tokens: map<Pubkey, TokenAccount>)

  /** One entry of the instruction's account list. */
  datatype AccountMeta = AccountMeta(key: Pubkey, isSigner: bool, isWritable: bool)

  /**
   * What a handler learns from outside its accounts: its own program id, the
   * SPL Token program id, the PDA derivation `find_program_address` (an opaque
   * function of the seed list and the program id), `Rent::minimum_balance` and
   * the clock's `unix_timestamp`.
   */
  datatype Env = Env(
    programId: Pubkey,
    tokenProgram: Pubkey,
    derive: (seq<seq<byte>>, Pubkey) -> Pubkey,
    rent: nat -> nat,
    now: i64)

  /** The System program's id, 32 zero bytes (also `Pubkey::default()`). */
  const SYSTEM_PROGRAM_ID: Pubkey := ZERO_KEY

  /** `Result<T, ProgramError>`; `ProgramResult` is `Res<()>`. */
  datatype Res<+T> = Ok(value: T) | Fail(error: ProgramError) {
    predicate IsFailure() { Fail? }
    function PropagateFailure<U>(): Res<U> requires Fail? { Fail(error) }
    function Extract(): T requires Ok? { value }
  }

  function Get(c: Chain, k: Pubkey): Account
  {
    if k in c.accounts then c.accounts[k] else Account(0, [])
  }

  function SetAccount(c: Chain, k: Pubkey, a: Account): (r: Chain)
    ensures Get(r, k) == a
    ensures forall k' :: k' != k ==> Get(r, k') == Get(c, k')
    ensures r.tokens == c.tokens
  {
    c.(accounts := c.accounts[k := a])
  }

  function SetData(c: Chain, k: Pubkey, data: seq<byte>): (r: Chain)
    ensures Get(r, k) == Account(Get(c, k).lamports, data)
    ensures forall k' :: k' != k ==> Get(r, k') == Get(c, k')
    ensures r.tokens == c.tokens
  {
    SetAccount(c, k, Get(c, k).(data := data))
  }

  function SetLamports(c: Chain, k: Pubkey, n: nat): (r: Chain)
    ensures Get(r, k) == Account(n, Get(c, k).data)
    ensures forall k' :: k' != k ==> Get(r, k') == Get(c, k')
    ensures r.tokens == c.tokens
  {
    SetAccount(c, k, Get(c, k).(lamports := n))
  }

  // ---------------------------------------------------------------------------
  // Writing into a borrowed account buffer

  /**
   * `bytes` written through `&mut [u8]` into `buf`: as much of `bytes` as fits
   * replaces the front of `buf`; the buffer never grows.
   */
  function Overwrite(buf: seq<byte>, bytes: seq<byte>): (r: seq<byte>)
    ensures |r| == |buf|
    ensures |bytes| <= |buf| ==> r == bytes + buf[|bytes|..]
    ensures |bytes| > |buf| ==> r == bytes[..|buf|]
  {
    if |bytes| <= |buf| then bytes + buf[|bytes|..] else bytes[..|buf|]
  }

  /**
   * `record.serialize(&mut &mut account.data[..])?`: fails (a Borsh I/O error)
   * when the encoding is longer than the account's data.
   */
  function Serialize(c: Chain, k: Pubkey, bytes: seq<byte>): (r: Res<Chain>)
    ensures r.Ok? <==> |bytes| <= |Get(c, k).data|
    ensures r.Fail? ==> r.error == BorshIoError
    ensures r.Ok? ==> Get(r.value, k) == Account(Get(c, k).lamports, bytes + Get(c, k).data[|bytes|..])
    ensures r.Ok? ==> forall k' :: k' != k ==> Get(r.value, k') == Get(c, k')
    ensures r.Ok? ==> r.value.tokens == c.tokens
  {
    if |bytes| <= |Get(c, k).data| then Ok(SetData(c, k, Overwrite(Get(c, k).data, bytes)))
    else Fail(BorshIoError)
  }

  // ---------------------------------------------------------------------------
  // System program

  /**
   * `system_instruction::create_account(payer, target, lamports, space, owner)`
   * invoked with `systemKey` as the program account.  The System program
   * refuses a target that already holds lamports or data, and a payer that
   * carries data or lacks the lamports.
   */
  function CreateAccount(c: Chain, systemKey: Pubkey, payer: Pubkey, target: Pubkey, lamports: nat, space: nat)
    : (r: Res<Chain>)
    ensures r.Ok? <==> systemKey == SYSTEM_PROGRAM_ID && Get(c, target) == Account(0, [])
                       && |Get(c, payer).data| == 0 && Get(c, payer).lamports >= lamports
    ensures r.Fail? ==> r.error == SystemProgramFailure
    ensures r.Ok? ==> Get(r.value, target) == Account(lamports, ZeroBytes(space))
    ensures r.Ok? && payer != target ==> Get(r.value, payer).lamports == Get(c, payer).lamports - lamports
    ensures r.Ok? ==> forall k :: k != target ==> Get(r.value, k).data == Get(c, k).data
    ensures r.Ok? ==> forall k :: k != target && k != payer ==> Get(r.value, k) == Get(c, k)
    ensures r.Ok? ==> r.value.tokens == c.tokens
  {
    if systemKey != SYSTEM_PROGRAM_ID then Fail(SystemProgramFailure)
    else if Get(c, target).lamports > 0 || |Get(c, target).data| > 0 then Fail(SystemProgramFailure)
    else if |Get(c, payer).data| > 0 || Get(c, payer).lamports < lamports then Fail(SystemProgramFailure)
    else
      var c1 := SetLamports(c, payer, Get(c, payer).lamports - lamports);
      Ok(SetAccount(c1, target, Account(lamports, ZeroBytes(space))))
  }

  /**
   * `system_instruction::transfer(from, to, amount)`: moves lamports, keeps
   * their total.  The System program debits `from` first and then credits
   * `to` with a checked u64 add, so a credit past `u64::MAX` fails (a
   * transfer to oneself cannot overflow: the debit comes first).
   */
  function SystemTransfer(c: Chain, systemKey: Pubkey, from: Pubkey, to: Pubkey, amount: nat): (r: Res<Chain>)
    ensures r.Ok? <==> systemKey == SYSTEM_PROGRAM_ID && |Get(c, from).data| == 0 && Get(c, from).lamports >= amount
                       && (from == to || Get(c, to).lamports + amount < U64_LIMIT)
    ensures r.Fail? ==> r.error == SystemProgramFailure
    ensures r.Ok? && from != to ==>
      Get(r.value, from).lamports == Get(c, from).lamports - amount
      && Get(r.value, to).lamports == Get(c, to).lamports + amount
    ensures r.Ok? && from == to ==> Get(r.value, from) == Get(c, from)
    ensures r.Ok? ==> forall k :: Get(r.value, k).data == Get(c, k).data
    ensures r.Ok? ==> forall k :: k != from && k != to ==> Get(r.value, k) == Get(c, k)
    ensures r.Ok? ==> r.value.tokens == c.tokens
  {
    if systemKey != SYSTEM_PROGRAM_ID || |Get(c, from).data| > 0 || Get(c, from).lamports < amount then
      Fail(SystemProgramFailure)
    else if from != to && Get(c, to).lamports + amount >= U64_LIMIT then
      Fail(SystemProgramFailure)
    else
      var c1 := SetLamports(c, from, Get(c, from).lamports - amount);
      Ok(SetLamports(c1, to, Get(c1, to).lamports + amount))
  }

  // ---------------------------------------------------------------------------
  // SPL Token program

  /**
   * `spl_token::instruction::burn(account, mint, authority, amount)` with
   * `programKey` as the program account: the account must hold `mint`, belong
   * to `authority`, and hold at least `amount`.
   */
  function TokenBurn(env: Env, c: Chain, programKey: Pubkey, account: Pubkey, mint: Pubkey, authority: Pubkey,
                     amount: nat): (r: Res<Chain>)
    ensures r.Ok? <==> programKey == env.tokenProgram && account in c.tokens
                       && c.tokens[account].mint == mint && c.tokens[account].owner == authority
                       && c.tokens[account].amount >= amount
    ensures r.Fail? ==> r.error == TokenProgramFailure
    ensures r.Ok? ==> r.value.accounts == c.accounts
    ensures r.Ok? ==> r.value.tokens == c.tokens[account := c.tokens[account].(amount := c.tokens[account].amount - amount)]
  {
    if programKey != env.tokenProgram || account !in c.tokens then Fail(TokenProgramFailure)
    else
      var t := c.tokens[account];
      if t.mint != mint || t.owner != authority || t.amount < amount then Fail(TokenProgramFailure)
      else Ok(c.(tokens := c.tokens[account := t.(amount := t.amount - amount)]))
  }

  /**
   * `spl_token::instruction::transfer(src, dst, authority, amount)` with
   * `programKey` as the program account: both accounts must hold the same
   * mint, `src` must belong to `authority` and hold at least `amount`, and
   * the credit to a different `dst` is a checked u64 add (a transfer to
   * oneself returns before any arithmetic).
   */
  function TokenTransfer(env: Env, c: Chain, programKey: Pubkey, src: Pubkey, dst: Pubkey, authority: Pubkey,
                         amount: nat): (r: Res<Chain>)
    ensures r.Ok? <==> programKey == env.tokenProgram && src in c.tokens && dst in c.tokens
                       && c.tokens[src].mint == c.tokens[dst].mint && c.tokens[src].owner == authority
                       && c.tokens[src].amount >= amount
                       && (src == dst || c.tokens[dst].amount + amount < U64_LIMIT)
    ensures r.Fail? ==> r.error == TokenProgramFailure
    ensures r.Ok? ==> r.value.accounts == c.accounts
    ensures r.Ok? ==> r.value.tokens.Keys == c.tokens.Keys
    ensures r.Ok? && src != dst ==>
      r.value.tokens[src] == c.tokens[src].(amount := c.tokens[src].amount - amount)
      && r.value.tokens[dst] == c.tokens[dst].(amount := c.tokens[dst].amount + amount)
    ensures r.Ok? && src == dst ==> r.value.tokens == c.tokens
    ensures r.Ok? ==> forall k :: k in c.tokens && k != src && k != dst ==> r.value.tokens[k] == c.tokens[k]
  {
    if programKey != env.tokenProgram || src !in c.tokens || dst !in c.tokens then Fail(TokenProgramFailure)
    else
      var s, d := c.tokens[src], c.tokens[dst];
      if s.mint != d.mint || s.owner != authority || s.amount < amount then Fail(TokenProgramFailure)
      else if src != dst && d.amount + amount >= U64_LIMIT then Fail(TokenProgramFailure)
      else
        var t1 := c.tokens[src := s.(amount := s.amount - amount)];
        Ok(c.(tokens := t1[dst := t1[dst].(amount := t1[dst].amount + amount)]))
  }
}
