/**
 * The web client's error reporting: the table of the program's error codes,
 * the classifier that turns a failed transaction's error into a message for
 * the user, the explorer link for a transaction and the shortened signature
 * shown in the interface.
 *
 * The classifier looks for `custom program error: ` (any letter case),
 * an optional `0x` and a run of decimal digits, the leftmost such match in
 * the error text, as the regular expression `/custom program error:
 * (?:0x)?(\d+)/i` does; the digits are read as a decimal number even after
 * `0x`.
 */
module ClientErrors {
  import opened Borsh
  import Errors

  // ---------------------------------------------------------------------------
  // The code table

  const DEAL_ERRORS: map<nat, string> := map[
    0 := "Invalid instruction - please try again",
    1 := "Account address mismatch - incorrect PDA derivation",
    2 := "This account has already been initialized",
    3 := "Math overflow occurred - value too large",
    4 := "Unauthorized - you don't have permission for this action",
    5 := "Deal sold out - no more NFTs available to mint",
    6 := "This coupon has already been redeemed",
    7 := "Invalid input - please check your data"]

  /** The table has an entry for exactly the codes the program's error enum uses. */
  lemma TableCoversProgramCodes(c: nat)
    ensures c in DEAL_ERRORS <==> c < 8
    ensures forall e: Errors.DealError :: Errors.Code(e) as nat in DEAL_ERRORS
  {
  }

  /** The `n` characters of `m` from `a` on are the `n` characters of `d` from `o` on. */
  predicate SameRun(m: string, a: nat, d: string, o: nat, n: nat)
  {
    a + n <= |m| && o + n <= |d| && forall i :: a <= i < a + n ==> m[i] == d[i - a + o]
  }

  /**
   * Each entry says what the program's own error text says.  Where the Rust
   * text opens the client's message it is a prefix of it; otherwise its key
   * words, cut from the Rust text, appear in the client's message in the
   * same order ("mismatch" ... "PDA derivation", "already" ... "initialized",
   * "already" ... "redeemed").
   */
  lemma MeaningsAgree(e: Errors.DealError)
    ensures Errors.Code(e) as nat in DEAL_ERRORS
    ensures e in {Errors.InvalidInstruction, Errors.Overflow, Errors.Unauthorized, Errors.DealSoldOut,
                  Errors.InvalidInput}
      ==> SameRun(Errors.Message(e), 0, DEAL_ERRORS[Errors.Code(e) as nat], 0, |Errors.Message(e)|)
    ensures e == Errors.PdaDerivationMismatch ==>
      SameRun(Errors.Message(e), 15, DEAL_ERRORS[1], 16, 8) && SameRun(Errors.Message(e), 0, DEAL_ERRORS[1], 37, 14)
    ensures e == Errors.AlreadyInitialized ==>
      SameRun(Errors.Message(e), 8, DEAL_ERRORS[2], 17, 7) && SameRun(Errors.Message(e), 16, DEAL_ERRORS[2], 30, 11)
    ensures e == Errors.AlreadyRedeemed ==>
      SameRun(Errors.Message(e), 7, DEAL_ERRORS[6], 16, 7) && SameRun(Errors.Message(e), 15, DEAL_ERRORS[6], 29, 8)
  {
    match e
    case InvalidInstruction => InvalidInstructionAgrees();
    case PdaDerivationMismatch => PdaDerivationMismatchAgrees();
    case AlreadyInitialized => AlreadyInitializedAgrees();
    case Overflow => OverflowAgrees();
    case Unauthorized => UnauthorizedAgrees();
    case DealSoldOut => DealSoldOutAgrees();
    case AlreadyRedeemed => AlreadyRedeemedAgrees();
    case InvalidInput => InvalidInputAgrees();
  }

  lemma InvalidInstructionAgrees()
    ensures SameRun(Errors.Message(Errors.InvalidInstruction), 0, DEAL_ERRORS[0], 0, 19)
  {
    assert Errors.Message(Errors.InvalidInstruction) == "Invalid instruction";
    assert DEAL_ERRORS[0] == "Invalid instruction - please try again";
  }

  lemma PdaDerivationMismatchAgrees()
    ensures SameRun(Errors.Message(Errors.PdaDerivationMismatch), 15, DEAL_ERRORS[1], 16, 8)
    ensures SameRun(Errors.Message(Errors.PdaDerivationMismatch), 0, DEAL_ERRORS[1], 37, 14)
  {
    MismatchAgrees();
    PdaDerivationAgrees();
  }

  lemma MismatchAgrees()
    ensures SameRun(Errors.Message(Errors.PdaDerivationMismatch), 15, DEAL_ERRORS[1], 16, 8)
  {
    assert Errors.Message(Errors.PdaDerivationMismatch) == "PDA derivation mismatch";
    assert DEAL_ERRORS[1] == "Account address mismatch - incorrect PDA derivation";
  }

  lemma PdaDerivationAgrees()
    ensures SameRun(Errors.Message(Errors.PdaDerivationMismatch), 0, DEAL_ERRORS[1], 37, 14)
  {
    assert Errors.Message(Errors.PdaDerivationMismatch) == "PDA derivation mismatch";
    assert DEAL_ERRORS[1] == "Account address mismatch - incorrect PDA derivation";
  }

  lemma AlreadyInitializedAgrees()
    ensures SameRun(Errors.Message(Errors.AlreadyInitialized), 8, DEAL_ERRORS[2], 17, 7)
    ensures SameRun(Errors.Message(Errors.AlreadyInitialized), 16, DEAL_ERRORS[2], 30, 11)
  {
    assert Errors.Message(Errors.AlreadyInitialized) == "Account already initialized";
    assert DEAL_ERRORS[2] == "This account has already been initialized";
  }

  lemma OverflowAgrees()
    ensures SameRun(Errors.Message(Errors.Overflow), 0, DEAL_ERRORS[3], 0, 13)
  {
    assert Errors.Message(Errors.Overflow) == "Math overflow";
    assert DEAL_ERRORS[3] == "Math overflow occurred - value too large";
  }

  lemma UnauthorizedAgrees()
    ensures SameRun(Errors.Message(Errors.Unauthorized), 0, DEAL_ERRORS[4], 0, 12)
  {
    assert Errors.Message(Errors.Unauthorized) == "Unauthorized";
    assert DEAL_ERRORS[4] == "Unauthorized - you don't have permission for this action";
  }

  lemma DealSoldOutAgrees()
    ensures SameRun(Errors.Message(Errors.DealSoldOut), 0, DEAL_ERRORS[5], 0, 13)
  {
    assert Errors.Message(Errors.DealSoldOut) == "Deal sold out";
    assert DEAL_ERRORS[5] == "Deal sold out - no more NFTs available to mint";
  }

  lemma AlreadyRedeemedAgrees()
    ensures SameRun(Errors.Message(Errors.AlreadyRedeemed), 7, DEAL_ERRORS[6], 16, 7)
    ensures SameRun(Errors.Message(Errors.AlreadyRedeemed), 15, DEAL_ERRORS[6], 29, 8)
  {
    assert Errors.Message(Errors.AlreadyRedeemed) == "Coupon already redeemed";
    assert DEAL_ERRORS[6] == "This coupon has already been redeemed";
  }

  lemma InvalidInputAgrees()
    ensures SameRun(Errors.Message(Errors.InvalidInput), 0, DEAL_ERRORS[7], 0, 13)
  {
    assert Errors.Message(Errors.InvalidInput) == "Invalid input";
    assert DEAL_ERRORS[7] == "Invalid input - please check your data";
  }

  // ---------------------------------------------------------------------------
  // Numbers as text

  predicate IsDigit(ch: char) { '0' <= ch <= '9' }

  function DigitValue(ch: char): nat
    requires IsDigit(ch)
  {
    ch as int - '0' as int
  }

  /** `parseInt(ds, 10)` on a run of decimal digits. */
  function DecimalValue(ds: string): nat
    requires forall i :: 0 <= i < |ds| ==> IsDigit(ds[i])
  {
    if ds == [] then 0 else 10 * DecimalValue(ds[..|ds| - 1]) + DigitValue(ds[|ds| - 1])
  }

  function HexDigit(d: nat): char
    requires d < 16
  {
    "0123456789abcdef"[d]
  }

  /** `n.toString(16)`: lower-case hexadecimal digits, no leading zero. */
  function Hex(n: nat): (h: string)
    ensures |h| >= 1
  {
    if n < 16 then [HexDigit(n)] else Hex(n / 16) + [HexDigit(n % 16)]
  }

  function HexDigitValue(ch: char): nat
  {
    if '0' <= ch <= '9' then ch as int - '0' as int
    else if 'a' <= ch <= 'f' then ch as int - 'a' as int + 10
    else 0
  }

  /** The value of a string of lower-case hexadecimal digits. */
  function HexValue(h: string): nat
  {
    if h == [] then 0 else 16 * HexValue(h[..|h| - 1]) + HexDigitValue(h[|h| - 1])
  }

  /** Hex is read back by HexValue, and it writes no leading zero. */
  lemma {:induction false} HexRoundTrip(n: nat)
    ensures HexValue(Hex(n)) == n
    ensures |Hex(n)| == 1 || Hex(n)[0] != '0'
  {
    if n >= 16 {
      HexRoundTrip(n / 16);
      var h := Hex(n);
      assert h[..|h| - 1] == Hex(n / 16);
      assert HexDigitValue(HexDigit(n % 16)) == n % 16;
    } else {
      assert HexDigitValue(HexDigit(n)) == n;
    }
  }

  /** Below ten, hexadecimal and decimal write the same single digit. */
  lemma SmallCodeDigits(c: nat)
    requires c < 10
    ensures Hex(c) == [('0' as int + c) as char]
    ensures IsDigit(Hex(c)[0]) && DecimalValue(Hex(c)) == c
  {
    assert DecimalValue(Hex(c)) == 10 * DecimalValue([]) + DigitValue(Hex(c)[0]);
  }

  // ---------------------------------------------------------------------------
  // The regular expression

  const CUSTOM_PREFIX: string := "custom program error: "

  /** ASCII case folding, as a non-Unicode `/i` pattern compares these characters. */
  function Lower(ch: char): char
  {
    if 'A' <= ch <= 'Z' then (ch as int + 32) as char else ch
  }

  /** `s` holds `lit` (written in lower case) at position `p`, ignoring letter case. */
  predicate FoldedAt(s: string, p: nat, lit: string)
  {
    p + |lit| <= |s| && forall i :: 0 <= i < |lit| ==> Lower(s[p + i]) == lit[i]
  }

  /** The length of the run of decimal digits starting at `p`. */
  function DigitRun(s: string, p: nat): (n: nat)
    requires p <= |s|
    ensures p + n <= |s|
    ensures forall i :: p <= i < p + n ==> IsDigit(s[i])
    ensures p + n < |s| ==> !IsDigit(s[p + n])
    decreases |s| - p
  {
    if p < |s| && IsDigit(s[p]) then 1 + DigitRun(s, p + 1) else 0
  }

  /** The number `\d+` captures at `p`: the longest run of digits there. */
  function DigitsAt(s: string, p: nat): Option<nat>
    requires p <= |s|
  {
    var n := DigitRun(s, p);
    if n == 0 then None else Some(DecimalValue(s[p..p + n]))
  }

  /**
   * The code the expression captures when its match starts at `p`: with the
   * optional `0x` if digits follow it, otherwise without it (so `0x` not
   * followed by a digit captures the `0`).
   */
  function MatchAt(s: string, p: nat): (r: Option<nat>)
    ensures r.Some? ==> p + |CUSTOM_PREFIX| <= |s|
  {
    if !FoldedAt(s, p, CUSTOM_PREFIX) then None
    else
      var q := p + |CUSTOM_PREFIX|;
      if FoldedAt(s, q, "0x") && DigitsAt(s, q + 2).Some? then DigitsAt(s, q + 2)
      else DigitsAt(s, q)
  }

  /** `s.match(re)`: the code of the leftmost match at or after `p`. */
  function FindCode(s: string, p: nat): Option<nat>
    decreases |s| - p
  {
    if p > |s| then None
    else if MatchAt(s, p).Some? then MatchAt(s, p)
    else FindCode(s, p + 1)
  }

  /** The search returns the match at the first position that has one. */
  lemma {:induction false} FindCodeFirst(s: string, p: nat, m: nat)
    requires p <= m && MatchAt(s, m).Some?
    requires forall q :: p <= q < m ==> MatchAt(s, q).None?
    ensures FindCode(s, p) == MatchAt(s, m)
    decreases m - p
  {
    if p < m {
      FindCodeSkips(s, p, m);
      FindCodeFirst(s, p + 1, m);
    } else {
      FindCodeStops(s, p);
    }
  }

  /** A position without a match before a later match is passed over. */
  lemma FindCodeSkips(s: string, p: nat, m: nat)
    requires p < m && MatchAt(s, m).Some? && MatchAt(s, p).None?
    ensures FindCode(s, p) == FindCode(s, p + 1)
  {
  }

  /** The search stops at a position with a match. */
  lemma FindCodeStops(s: string, p: nat)
    requires MatchAt(s, p).Some?
    ensures FindCode(s, p) == MatchAt(s, p)
  {
  }

  // ---------------------------------------------------------------------------
  // parseContractError

  /** A thrown value: nothing, or an object with a `message` ("" when absent) and a `toString()`. */
  datatype JsError = Nullish | Thrown(message: string, text: string)

  /** `error?.message || error?.toString() || ''`. */
  function ErrorString(err: JsError): string
  {
    match err
    case Nullish => ""
    case Thrown(message, text) => if message != "" then message else text
  }

  /** `s` contains `t` as a contiguous substring. */
  predicate Contains(s: string, t: string)
    decreases |s|
  {
    |t| <= |s| && (s[..|t|] == t || Contains(s[1..], t))
  }

  const UNEXPECTED: string := "An unexpected error occurred"

  /** `parseContractError`: whatever was thrown, the user is shown a message that is never empty. */
  function ParseContractError(err: JsError): (r: string)
    ensures |r| > 0
  {
    var s := ErrorString(err);
    match FindCode(s, 0)
    case Some(code) =>
      if code in DEAL_ERRORS then DEAL_ERRORS[code] + " (Error code: 0x" + Hex(code) + ")"
      else "Contract error (code 0x" + Hex(code) + ")"
    case None =>
      if Contains(s, "Transaction simulation failed") then
        if Contains(s, "insufficient") then "Insufficient SOL balance for transaction"
        else if Contains(s, "Blockhash not found") then "Transaction expired - please try again"
        else "Transaction simulation failed - please check your inputs"
      else if Contains(s, "User rejected") then "Transaction cancelled by user"
      else if Contains(s, "WalletNotConnected") then "Please connect your wallet first"
      else if 0 < |s| < 200 then s
      else UNEXPECTED
  }

  /**
   * A custom program error decides the message whatever else the text says:
   * a code in the table gives its entry and the code in hexadecimal, any
   * other code the generic contract-error message.
   */
  lemma CustomCodeFirst(err: JsError)
    requires FindCode(ErrorString(err), 0).Some?
    ensures var c := FindCode(ErrorString(err), 0).value;
      (c < 8 ==> ParseContractError(err) == DEAL_ERRORS[c] + " (Error code: 0x" + [HexDigit(c)] + ")")
      && (c >= 8 ==> ParseContractError(err) == "Contract error (code 0x" + Hex(c) + ")")
  {
    var c := FindCode(ErrorString(err), 0).value;
    TableCoversProgramCodes(c);
    if c < 8 {
      assert Hex(c) == [HexDigit(c)];
    }
  }

  /**
   * The program's error `e`, as the runtime reports it (`custom program
   * error: 0x` and the code in hexadecimal) anywhere in the text, after no
   * earlier match and before no further digit, is reported with the table's
   * entry for `e`.
   */
  lemma ProgramErrorReported(e: Errors.DealError, pre: string, post: string, text: string)
    requires var s := pre + CUSTOM_PREFIX + "0x" + Hex(Errors.Code(e) as nat) + post;
      forall q :: 0 <= q < |pre| ==> MatchAt(s, q).None?
    requires post == [] || !IsDigit(post[0])
    ensures var c := Errors.Code(e) as nat;
      ParseContractError(Thrown(pre + CUSTOM_PREFIX + "0x" + Hex(c) + post, text))
        == DEAL_ERRORS[c] + " (Error code: 0x" + Hex(c) + ")"
  {
    var c := Errors.Code(e) as nat;
    var s := pre + CUSTOM_PREFIX + "0x" + Hex(c) + post;
    ReportedCodeMatches(s, pre, post, c);
    FindCodeFirst(s, 0, |pre|);
    assert ErrorString(Thrown(s, text)) == s;
    CustomCodeFirst(Thrown(s, text));
    assert Hex(c) == [HexDigit(c)];
  }

  /** The runtime's report of a code below ten matches where it starts, capturing that code. */
  lemma ReportedCodeMatches(s: string, pre: string, post: string, c: nat)
    requires c < 10 && s == pre + CUSTOM_PREFIX + "0x" + Hex(c) + post
    requires post == [] || !IsDigit(post[0])
    ensures MatchAt(s, |pre|) == Some(c)
  {
    SmallCodeDigits(c);
    var p, q := |pre|, |pre| + |CUSTOM_PREFIX|;
    PrefixFolded(s, p);
    assert s[q] == '0' && s[q + 1] == 'x';
    assert FoldedAt(s, q, "0x");
    assert s[q + 2] == Hex(c)[0];
    assert DigitRun(s, q + 3) == 0 by {
      assert q + 3 < |s| ==> s[q + 3] == post[0];
    }
    assert DigitRun(s, q + 2) == 1;
    assert s[q + 2..q + 3] == Hex(c);
  }

  /** Lower-case text matches itself when letter case is ignored. */
  lemma PrefixFolded(s: string, p: nat)
    requires p + |CUSTOM_PREFIX| <= |s| && s[p..p + |CUSTOM_PREFIX|] == CUSTOM_PREFIX
    ensures FoldedAt(s, p, CUSTOM_PREFIX)
  {
    forall i | 0 <= i < |CUSTOM_PREFIX|
      ensures Lower(s[p + i]) == CUSTOM_PREFIX[i]
    {
      assert s[p + i] == CUSTOM_PREFIX[i];
    }
  }

  /** The digits after `0x` are read as decimal: `0x10` is code 10, reported as `0xa`. */
  lemma HexLookingCodeReadAsDecimal(text: string)
    ensures ParseContractError(Thrown("custom program error: 0x10", text)) == "Contract error (code 0xa)"
  {
    var s := "custom program error: 0x10";
    HexLookingMatch(s);
    FindCodeFirst(s, 0, 0);
    TableCoversProgramCodes(10);
    assert Hex(10) == "a";
  }

  lemma HexLookingMatch(s: string)
    requires s == "custom program error: 0x10"
    ensures MatchAt(s, 0) == Some(10)
  {
    assert FoldedAt(s, 0, CUSTOM_PREFIX) by {
      assert s[..22] == CUSTOM_PREFIX;
    }
    assert FoldedAt(s, 22, "0x");
    assert DigitRun(s, 24) == 2;
    assert s[24..26] == "10";
    assert DecimalValue("10") == 10 by {
      assert "10"[..1] == "1";
    }
  }

  /** Inside a failed simulation, "insufficient" wins over "Blockhash not found". */
  lemma SimulationFailureOrder(err: JsError)
    requires FindCode(ErrorString(err), 0).None?
    requires Contains(ErrorString(err), "Transaction simulation failed")
    ensures Contains(ErrorString(err), "insufficient") ==>
      ParseContractError(err) == "Insufficient SOL balance for transaction"
    ensures !Contains(ErrorString(err), "insufficient") && Contains(ErrorString(err), "Blockhash not found") ==>
      ParseContractError(err) == "Transaction expired - please try again"
    ensures !Contains(ErrorString(err), "insufficient") && !Contains(ErrorString(err), "Blockhash not found") ==>
      ParseContractError(err) == "Transaction simulation failed - please check your inputs"
  {
  }

  /** An unrecognised text comes back as it is exactly when it is non-empty and under 200 characters. */
  lemma VerbatimWhenShort(err: JsError)
    requires var s := ErrorString(err);
      FindCode(s, 0).None? && !Contains(s, "Transaction simulation failed")
      && !Contains(s, "User rejected") && !Contains(s, "WalletNotConnected")
    ensures ParseContractError(err) == ErrorString(err) <==> 0 < |ErrorString(err)| < 200
    ensures !(0 < |ErrorString(err)| < 200) ==> ParseContractError(err) == UNEXPECTED
  {
  }

  // ---------------------------------------------------------------------------
  // getExplorerUrl

  datatype Cluster = Devnet | MainnetBeta | Testnet

  function ClusterName(c: Cluster): string
  {
    match c
    case Devnet => "devnet"
    case MainnetBeta => "mainnet-beta"
    case Testnet => "testnet"
  }

  const EXPLORER_TX: string := "https://explorer.solana.com/tx/"

  function ExplorerUrl(signature: string, cluster: Cluster): string
  {
    EXPLORER_TX + signature + "?cluster=" + ClusterName(cluster)
  }

  /** `getExplorerUrl(signature)` with the cluster left out. */
  function DefaultExplorerUrl(signature: string): string
  {
    ExplorerUrl(signature, Devnet)
  }

  /** The link names one transaction on one cluster: signature and cluster can be read back from it. */
  lemma ExplorerUrlInjective(s1: string, c1: Cluster, s2: string, c2: Cluster)
    requires ExplorerUrl(s1, c1) == ExplorerUrl(s2, c2)
    ensures s1 == s2 && c1 == c2
  {
    var u := ExplorerUrl(s1, c1);
    var n1, n2 := ClusterName(c1), ClusterName(c2);
    assert u[|u| - 1] == n1[|n1| - 1] && u[|u| - 1] == n2[|n2| - 1];
    assert u[|u| - 4] == n1[|n1| - 4] && u[|u| - 4] == n2[|n2| - 4];
    assert c1 == c2;
    assert s1 == u[|EXPLORER_TX|..|EXPLORER_TX| + |s1|];
    assert s2 == u[|EXPLORER_TX|..|EXPLORER_TX| + |s2|];
  }

  /** The default link is the devnet link, and the signature appears in it as given. */
  lemma DefaultIsDevnet(signature: string)
    ensures DefaultExplorerUrl(signature) == EXPLORER_TX + signature + "?cluster=devnet"
    ensures DefaultExplorerUrl(signature)[|EXPLORER_TX|..|EXPLORER_TX| + |signature|] == signature
  {
  }

  // ---------------------------------------------------------------------------
  // getShortTxSignature

  function ShortTxSignature(sig: string): (r: string)
    ensures |sig| <= 16 ==> r == sig
    ensures |sig| > 16 ==> |r| == 19 && r[..8] == sig[..8] && r[8..11] == "..." && r[11..] == sig[|sig| - 8..]
  {
    if |sig| <= 16 then sig else sig[..8] + "..." + sig[|sig| - 8..]
  }

  /**
   * A signature is left as it is exactly when it is at most 16 characters or
   * already has the shortened form; hence shortening twice is shortening once.
   */
  lemma ShortTxSignatureFixed(sig: string)
    ensures ShortTxSignature(sig) == sig <==> |sig| <= 16 || (|sig| == 19 && sig[8..11] == "...")
    ensures ShortTxSignature(ShortTxSignature(sig)) == ShortTxSignature(sig)
  {
    var r := ShortTxSignature(sig);
    if |sig| == 19 && sig[8..11] == "..." {
      assert sig == sig[..8] + sig[8..11] + sig[11..];
    }
    if |r| == 19 && r[8..11] == "..." {
      assert r == r[..8] + r[8..11] + r[11..];
    }
  }
}
