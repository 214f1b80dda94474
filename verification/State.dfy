/** Accounts, keys and failure modes shared by the quoters. */
module State {
  import opened Arithmetic

  /**
   * Account keys. Derived addresses are symbolic: a derivation is kept as its seed
   * and arguments instead of being hashed.
   */
  datatype Pubkey =
    | DefaultKey
    | NativeMint
    | Token2022NativeMint
    | UsdcMint
    | Key(id: nat)
    | Derived(seed: string, args: seq<Pubkey>)

  function PoolAuthority(mint: Pubkey): Pubkey {
    Derived("pool-authority", [mint])
  }

  function CanonicalPool(baseMint: Pubkey, quoteMint: Pubkey): Pubkey {
    Derived("pool", [PoolAuthority(baseMint), baseMint, quoteMint])
  }

  datatype QuoteError =
    | EmptyReserves
    | BaseOutExceedsReserve
    | FeesExceedOutput
    | DepletedBondingCurve
    | MathOverflow
    | InsufficientRealQuoteReserves
    | ZeroAmount
    | EmptyFeeTiers
    | TradingDisabled
    | CurveDepthExceeded
    | QuoteCurveNotEligible
    | QuoteReservesOutOfRange
    | QuoteCurveAwaitingMigration
    | QuotePoolAccountsRequired
    | MultiHopDiscontinuousPath
    | MultiHopMixedDirection
    | VenueNotSupported
    | PostCompleteLegNotAllowed

  datatype Option<+T> = None | Some(value: T)

  datatype Result<+T> = Ok(value: T) | Err(error: QuoteError) {
    predicate IsFailure() {
      Err?
    }

    function PropagateFailure<U>(): Result<U>
      requires Err?
    {
      Err(error)
    }

    function Extract(): T
      requires Ok?
    {
      value
    }
  }

  datatype Fees = Fees(lpFeeBps: u64, protocolFeeBps: u64, creatorFeeBps: u64)

  datatype FeeTier = FeeTier(threshold: u128, fees: Fees)

  datatype FeeConfig = FeeConfig(
    flatFees: Fees,
    feeTiers: seq<FeeTier>,
    stableFeeTiers: seq<FeeTier>,
    exoticFlatFees: Fees)

  /** The pump program's global configuration. */
  datatype Global = Global(
    initialVirtualTokenReserves: u64,
    initialVirtualSolReserves: u64,
    initialVirtualQuoteReserves: u64,
    initialRealTokenReserves: u64,
    tokenTotalSupply: u64,
    poolMigrationFee: u64,
    creatorFeeConfigurable: bool,
    whitelistPda: Pubkey,
    whitelistedQuoteMints: seq<Pubkey>,
    maxCurveDepth: u8)

  datatype BondingCurve = BondingCurve(
    virtualTokenReserves: u64,
    virtualQuoteReserves: u64,
    realTokenReserves: u64,
    realQuoteReserves: u64,
    tokenTotalSupply: u64,
    complete: bool,
    creator: Pubkey,
    isMayhemMode: bool,
    isCashbackCoin: bool,
    quoteMint: Pubkey,
    creatorFeeBps: u64,
    depth: u8,
    initialVirtualQuoteReserves: u64,
    postCompleteBaseOut: u64,
    postCompleteQuoteIn: u64)

  /** The pump-amm program's global configuration. */
  datatype GlobalConfig = GlobalConfig(disableFlags: u8, creatorFeeConfigurable: bool)

  datatype Pool = Pool(
    baseMint: Pubkey,
    quoteMint: Pubkey,
    creator: Pubkey,
    coinCreator: Pubkey,
    creatorFeeBps: u64,
    isMayhemMode: bool,
    isCashbackCoin: bool,
    virtualQuoteReserves: i128,
    protocolFees: u64,
    creatorFees: u64)

  /** The three keys that all stand for SOL as a quote. */
  predicate IsSolLikeQuoteMint(quoteMint: Pubkey) {
    quoteMint == DefaultKey || quoteMint == NativeMint || quoteMint == Token2022NativeMint
  }

  function ResolveQuoteMint(quoteMint: Pubkey): Pubkey {
    if quoteMint == DefaultKey then NativeMint else quoteMint
  }
}
