/** Data model of the Kolibri minter: its storage record, the oven snapshot that the
    oven proxy hands in with every call, the state update handed back to the oven,
    and the outbound operations (token mints and burns, tez transfers, callbacks)
    that a successful call emits. */
module MinterTypes {

  /** Fixed-point scale of every index, fee rate and percentage: 10^18 means 1.0. */
  const PRECISION: nat := 1_000_000_000_000_000_000

  type Positive = x: nat | x > 0 witness 1

  /** Length of one compounding period, in seconds. Its value lives in a constants
      file that is not part of this model, so it is left arbitrary (but positive). */
  const SECONDS_PER_COMPOUND: Positive

  /** Kolibri precision units per mutez. Also defined in that constants file and
      left arbitrary (but positive). */
  const MUTEZ_TO_KOLIBRI_CONVERSION: Positive

  /** The largest amount a Tezos mutez value can hold (a signed 64-bit integer). */
  const MAX_MUTEZ: nat := 0x7FFF_FFFF_FFFF_FFFF

  /** Tezos addresses are opaque; the minter only compares them for equality. */
  type Address = string

  datatype Option<+T> = None | Some(value: T)

  /** Why a call aborts. On chain every failure rolls the whole operation back. */
  datatype Error =
    | NotOvenProxy             // sender is not the oven proxy
    | NotGovernor              // sender is not the governor
    | AmountNotAllowed         // tez attached to getInterestIndex
    | OvenLiquidated           // operation forbidden on a liquidated oven
    | OvenUnderCollateralized  // collateralization below the minimum after the call
    | NotUnderCollateralized   // liquidation of an oven that is not below the minimum
    | OvenMaximumExceeded      // deposit over the configured oven maximum
    | ArithmeticFailure        // sp.as_nat of a negative value, or an ediv by zero
    | MutezUnderflow           // a mutez subtraction that would go negative
    | MutezOverflow            // a natural number too large to convert to mutez

  datatype Result<+T> = Success(value: T) | Failure(error: Error) {
    predicate IsFailure() {
      Failure?
    }

    function PropagateFailure<U>(): Result<U>
      requires Failure?
    {
      Failure(error)
    }

    function Extract(): T
      requires Success?
    {
      value
    }
  }

  /** The contract storage. Amounts of tez (ovenMax) are in mutez; every other
      quantity is a natural number scaled by PRECISION where it is a ratio. */
  datatype Storage = Storage(
    governorContractAddress: Address,
    tokenContractAddress: Address,
    ovenProxyContractAddress: Address,
    stabilityFundContractAddress: Address,
    developerFundContractAddress: Address,
    collateralizationPercentage: nat,
    stabilityFee: nat,
    lastInterestIndexUpdateTime: int,
    interestIndex: nat,
    stabilityDevFundSplit: nat,
    liquidationFeePercent: nat,
    ovenMax: Option<nat>
  )

  /** The chain context of one call: who sent it, the mutez attached, the contract's
      own balance while it runs (which includes the attached mutez), and the block
      timestamp in seconds. */
  datatype Txn = Txn(sender: Address, amount: nat, balance: nat, now: int)

  /** The oven snapshot that the oven proxy passes with every oven operation.
      `ovenBalance` is the oven's collateral in Kolibri precision units; the fee and
      the oven's interest index arrive as signed integers. */
  datatype Oven = Oven(
    ovenAddress: Address,
    ownerAddress: Address,
    ovenBalance: nat,
    borrowedTokens: nat,
    isLiquidated: bool,
    stabilityFeeTokens: int,
    interestIndex: int
  )

  /** The state update sent back to the oven (through the oven proxy), together
      with the mutez returned to the oven's custody. */
  datatype OvenUpdate = OvenUpdate(
    ovenAddress: Address,
    borrowedTokens: nat,
    stabilityFeeTokens: nat,
    interestIndex: nat,
    isLiquidated: bool,
    sendAmount: nat
  )

  /** An outbound operation other than the oven update. Mints and burns go to the
      token contract named in storage; `Send` moves mutez out of the minter. */
  datatype Effect =
    | Mint(to: Address, tokens: nat)
    | Burn(from: Address, tokens: nat)
    | Send(to: Address, mutez: nat)
    | IndexCallback(target: Address, index: nat)

  /** What a successful oven operation produces. */
  datatype OvenStep = OvenStep(storage: Storage, effects: seq<Effect>, update: OvenUpdate)

  /** What a successful getInterestIndex produces. */
  datatype IndexStep = IndexStep(storage: Storage, effects: seq<Effect>)

  /** Governance parameters set together by updateParams (ovenMax in mutez). */
  datatype Params = Params(
    stabilityFee: nat,
    liquidationFeePercent: nat,
    collateralizationPercentage: nat,
    ovenMax: Option<nat>
  )

  /** Total tokens minted by a list of effects. */
  function Minted(effects: seq<Effect>): nat
  {
    if effects == [] then 0
    else (if effects[0].Mint? then effects[0].tokens else 0) + Minted(effects[1..])
  }

  /** Total tokens burned by a list of effects. */
  function Burned(effects: seq<Effect>): nat
  {
    if effects == [] then 0
    else (if effects[0].Burn? then effects[0].tokens else 0) + Burned(effects[1..])
  }
}
