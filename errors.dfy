/**
 * The program's error enum, its conversion to `ProgramError::Custom(code)`,
 * and the other program errors the handlers can return.
 */
module Errors {
  import opened Borsh

  datatype DealError =
    | InvalidInstruction
    | PdaDerivationMismatch
    | AlreadyInitialized
    | Overflow
    | Unauthorized
    | DealSoldOut
    | AlreadyRedeemed
    | InvalidInput

  /** `e as u32`: the variant's declaration index. */
  function Code(e: DealError): (c: u32)
    ensures c < 8
  {
    match e
    case InvalidInstruction => 0
    case PdaDerivationMismatch => 1
    case AlreadyInitialized => 2
    case Overflow => 3
    case Unauthorized => 4
    case DealSoldOut => 5
    case AlreadyRedeemed => 6
    case InvalidInput => 7
  }

  /** `FromPrimitive::from_u32`: the variant with a given index, if there is one. */
  function FromCode(c: u32): (r: Option<DealError>)
    ensures r.Some? <==> c < 8
  {
    if c == 0 then Some(InvalidInstruction)
    else if c == 1 then Some(PdaDerivationMismatch)
    else if c == 2 then Some(AlreadyInitialized)
    else if c == 3 then Some(Overflow)
    else if c == 4 then Some(Unauthorized)
    else if c == 5 then Some(DealSoldOut)
    else if c == 6 then Some(AlreadyRedeemed)
    else if c == 7 then Some(InvalidInput)
    else None
  }

  /** The `#[error(...)]` display text of each variant. */
  function Message(e: DealError): string
  {
    match e
    case InvalidInstruction => "Invalid instruction"
    case PdaDerivationMismatch => "PDA derivation mismatch"
    case AlreadyInitialized => "Account already initialized"
    case Overflow => "Math overflow"
    case Unauthorized => "Unauthorized"
    case DealSoldOut => "Deal sold out"
    case AlreadyRedeemed => "Coupon already redeemed"
    case InvalidInput => "Invalid input"
  }

  /** Code and FromCode are inverse: every code below 8 names exactly one variant. */
  lemma CodeRoundTrip(e: DealError, c: u32)
    ensures FromCode(Code(e)) == Some(e)
    ensures FromCode(c) == Some(e) ==> Code(e) == c
  {
  }

  /** Distinct variants give distinct codes. */
  lemma CodeInjective(e1: DealError, e2: DealError)
    ensures Code(e1) == Code(e2) ==> e1 == e2
  {
    CodeRoundTrip(e1, Code(e1));
    CodeRoundTrip(e2, Code(e2));
  }

  /**
   * `ProgramError`, restricted to the variants this program produces.  The two
   * last stand for any failure of a cross-program call into the System program
   * or the SPL Token program, whose own error codes are not modelled.
   */
  datatype ProgramError =
    | Custom(code: u32)
    | NotEnoughAccountKeys
    | MissingRequiredSignature
    | InvalidAccountData
    | ArithmeticOverflow
    | BorshIoError
    | SystemProgramFailure
    | TokenProgramFailure

  /** `impl From<DealError> for ProgramError`. */
  function Into(e: DealError): (r: ProgramError)
    ensures r.Custom? && FromCode(r.code) == Some(e)
  {
    CodeRoundTrip(e, Code(e));
    Custom(Code(e))
  }
}
