/**
 * The constants of include/sd_defines.h: command indices, the R1 idle
 * mask, per-command timeouts (ms), retry bounds, OCR bit masks and the
 * default block length.
 */
module SdDefines {

  // ========== Command indices ==========
  const CmdGoIdleState: bv8 := 0
  const CmdSendIfCond: bv8 := 8
  const CmdSetBlockLen: bv8 := 16
  const CmdAppCmd: bv8 := 55
  const CmdReadOcr: bv8 := 58
  /** ACMD41, sent after CMD55. */
  const AcmdSdSendOpCond: bv8 := 41

  // ========== Masks ==========
  const R1IdleMask: bv32 := 0x01

  // ========== Timeouts (ms) ==========
  const TimeoutSdDefault: bv32 := 200
  const TimeoutGoIdleState: bv32 := 100
  const TimeoutSendIfCond: bv32 := 200
  const TimeoutSetBlockLen: bv32 := 200
  const TimeoutAppCmd: bv32 := 10
  const TimeoutReadOcr: bv32 := 200
  const TimeoutSdSendOpCond: bv32 := 20

  // ========== Timeouts (counts) ==========
  const TimeoutCntReadOcr: nat := 10
  const TimeoutCntSdSendOpCond: nat := 1000

  const SdDefaultBlockLen: bv32 := 512

  /** All command indices the driver issues. */
  const CommandIndices: seq<bv8> :=
    [CmdGoIdleState, CmdSendIfCond, CmdSetBlockLen, CmdAppCmd, CmdReadOcr, AcmdSdSendOpCond]

  /** All per-command timeouts the driver uses. */
  const CommandTimeouts: seq<bv32> :=
    [TimeoutGoIdleState, TimeoutSendIfCond, TimeoutSetBlockLen, TimeoutAppCmd, TimeoutReadOcr, TimeoutSdSendOpCond]

  /** Bit k of a 32-bit word, as a reference for the mask macros. */
  predicate Bit(x: bv32, k: nat)
    requires k < 32
  {
    x & (1 << k) != 0
  }

  /** OCR_POWER_UP_STATUS(x): the card power-up status bit. */
  function OcrPowerUpStatus(x: bv32): (r: bv32)
    ensures r != 0 <==> Bit(x, 31)
    ensures r == 0 || r == 0x8000_0000
  {
    x & 0x8000_0000
  }

  /** OCR_HIGH_CAPACITY(x): the card capacity status (CCS) bit. */
  function OcrHighCapacity(x: bv32): (r: bv32)
    ensures r != 0 <==> Bit(x, 30)
    ensures r == 0 || r == 0x4000_0000
  {
    x & 0x4000_0000
  }

  /** The OCR word of a powered-up SDHC card has both status bits set. */
  lemma PoweredHighCapacityOcr()
    ensures OcrPowerUpStatus(0xC0FF_8000) != 0 && OcrHighCapacity(0xC0FF_8000) != 0
  {
  }

  /**
   * Every command index fits the six index bits of a command frame, so the
   * transport's `& 0x3F` leaves each one unchanged.
   */
  lemma CommandIndicesFitSixBits()
    ensures forall c :: c in CommandIndices ==> c < 64 && c & 0x3F == c
  {
  }

  /**
   * Every per-command timeout is positive, so the transport's substitution
   * of the default timeout for a zero timeout never applies to them.
   */
  lemma CommandTimeoutsPositive()
    ensures forall t :: t in CommandTimeouts ==> t != 0
    ensures TimeoutSdDefault == 200
  {
  }
}
