/** The emulator's own records. */
module Types {
  import opened Wrappers
  import opened Hex
  import opened Btc

  const MAX_UINT16: nat := 65535

  datatype SigningRequestStkExp = SigningRequestStkExp(
    previousActiveStakeTx: Tx,
    otherFundingOutput: TxOut,
    previousStakingOutputIdx: nat,
    previousActiveStakeUnbondingPkScriptPath: Bytes)

  datatype SigningRequest = SigningRequest(
    stakingTx: Tx,
    slashingTx: Tx,
    unbondingTx: Tx,
    slashUnbondingTx: Tx,
    stakeExp: Option<SigningRequestStkExp>,
    stakingOutputIdx: nat,
    slashingPkScriptPath: Bytes,
    stakingTxUnbondingPkScriptPath: Bytes,
    unbondingTxSlashingPkScriptPath: Bytes,
    fpEncKeys: seq<EncKey>)

  datatype SignaturesResponse = SignaturesResponse(
    slashSigs: seq<Bytes>,
    unbondingSig: Signature,
    stkExtSig: Option<Signature>,
    slashUnbondingSigs: seq<Bytes>)

  /** The signatures one covenant member adds to one delegation. */
  datatype CovenantSigs = CovenantSigs(
    publicKey: PubKey,
    stakingTxHash: Hash,
    slashingSigs: seq<Bytes>,
    unbondingSig: Signature,
    slashingUnbondingSigs: seq<Bytes>,
    stkExpSig: Option<Signature>)

  datatype CovenantAdaptorSigInfo = CovenantAdaptorSigInfo(pk: PubKey, sigs: seq<Bytes>)
  datatype CovenantSchnorrSigInfo = CovenantSchnorrSigInfo(pk: PubKey, sig: Signature)

  datatype Undelegation = Undelegation(
    unbondingTxHex: string,
    slashingTxHex: string,
    covenantSlashingSigs: seq<CovenantAdaptorSigInfo>,
    covenantUnbondingSigs: seq<CovenantSchnorrSigInfo>)

  datatype StakeExpansion = StakeExpansion(previousStakingTxHashHex: string, otherFundingTxOutHex: string)

  datatype Delegation = Delegation(
    btcPk: PubKey,
    fpBtcPks: seq<PubKey>,
    stakingTime: nat,
    totalSat: int,
    stakingTxHex: string,
    stakingOutputIdx: nat,
    slashingTxHex: string,
    unbondingTime: nat,
    covenantSigs: seq<CovenantAdaptorSigInfo>,
    btcUndelegation: Option<Undelegation>,
    paramsVersion: nat,
    stakeExpansion: Option<StakeExpansion>)

  /** The staking parameters that are fixed once their version exists. */
  datatype Versioned = Versioned(
    minSlashingTxFeeSat: int,
    covenantPks: seq<PubKey>,
    slashingPkScript: Bytes,
    covenantQuorum: nat,
    slashingRate: nat,
    minCommissionRate: nat,
    unbondingTimeBlocks: nat,
    unbondingFee: Int64,
    minStakingTime: nat,
    maxStakingTime: nat,
    minStakingValue: int,
    maxStakingValue: int)

  /** Staking parameters as the emulator holds them; the checkpoint part has no version. */
  datatype StakingParams = StakingParams(
    confirmationTimeBlocks: nat,
    finalizationTimeoutBlocks: nat,
    versioned: Versioned)
}
