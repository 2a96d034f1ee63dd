/**
 * Shared records of the driver: the closed status taxonomy, bus and speed
 * kinds, the command request and the command response (include/sd_types.h
 * and the request/response records used by src/sd_core.c and src/sd_spi.c).
 *
 * Bytes are `bv8` and response words `bv32`, as the C code's `uint8_t` and
 * `uint32_t`, so that masks and shifts keep their C meaning.
 */
module SdTypes {

  datatype Option<T> = None | Some(value: T)

  /** sd_status_t: every operation at every layer returns one of these. */
  datatype Status =
    | Ok
    | Timeout
    | Crc
    | Io
    | Proto
    | Unsupported
    | Param
    | NoCard
    | Locked

  /** sd_bus_t */
  datatype BusKind = BusSpi | BusSdmmc

  /** sd_speed_t; the zero value of the C enum is SpeedDefault. */
  datatype Speed = SpeedDefault | SpeedHigh | SpeedUhsSdr50 | SpeedUhsSdr104 | SpeedUhsII | SpeedUhsIII

  /**
   * The response kind a request expects. R6 has no case of its own in the
   * SPI decoder and is handled by its default branch.
   */
  datatype ResponseKind = RespNone | R1 | R1b | R2 | R3 | R6 | R7

  /** A command request: index, 32-bit argument, response kind, timeout in ms. */
  datatype Request = Request(cmd: bv8, arg: bv32, resp: ResponseKind, timeoutMs: bv32)

  /** The four response words r[0..3] of sd_response_t. */
  type Words = s: seq<bv32> | |s| == 4 witness [0, 0, 0, 0]

  /** The value held by an sd_response_t: the R1 byte and the four words. */
  datatype RespVal = RespVal(r1: bv8, r: Words)

  /**
   * The value the model gives an uninitialised local sd_response_t
   * (the C code leaves those locals uninitialised).
   */
  const Blank: RespVal := RespVal(0, [0, 0, 0, 0])

  /**
   * What one submit does to the caller's response: the status returned,
   * the R1 byte stored, and the words stored into r[0], r[1], ... in that
   * order; every later word keeps its previous value.
   */
  datatype Reply = Reply(status: Status, r1: bv8, words: seq<bv32>)

  /** The answer of a card that never drives the line: a poll timeout. */
  const Silent: Reply := Reply(Timeout, 0xFF, [])

  /** Word k after storing the words `w` from r[0] on. */
  function Pick(w: seq<bv32>, k: nat, prev: bv32): bv32 {
    if k < |w| then w[k] else prev
  }

  /** `r` with the words `w` stored from r[0] on (words past r[3] are not stored). */
  function Overwrite(r: Words, w: seq<bv32>): (r': Words)
    ensures forall k :: 0 <= k < 4 && k < |w| ==> r'[k] == w[k]
    ensures forall k :: |w| <= k < 4 ==> r'[k] == r[k]
  {
    [Pick(w, 0, r[0]), Pick(w, 1, r[1]), Pick(w, 2, r[2]), Pick(w, 3, r[3])]
  }

  /** The response after a submit answered with `rp`. */
  function Deliver(rv: RespVal, rp: Reply): (rv': RespVal)
    ensures rv'.r1 == rp.r1
    ensures forall k :: 0 <= k < 4 && k < |rp.words| ==> rv'.r[k] == rp.words[k]
    ensures forall k :: |rp.words| <= k < 4 ==> rv'.r[k] == rv.r[k]
  {
    RespVal(rp.r1, Overwrite(rv.r, rp.words))
  }

  /**
   * sd_response_t, written in place by the transport through the caller's
   * pointer: `r1` and the fixed buffer `r` of four words.
   */
  class Response {
    var r1: bv8
    const r: array<bv32>

    ghost predicate Valid()
      reads this
    {
      r.Length == 4
    }

    function Value(): RespVal
      reads this, r
      requires Valid()
    {
      RespVal(r1, r[..])
    }

    /** A fresh local `sd_response_t rs;`, modelled as all-zero. */
    constructor ()
      ensures Valid() && fresh(r)
      ensures Value() == Blank
    {
      r1 := 0;
      r := new bv32[4](_ => 0);
    }
  }
}
