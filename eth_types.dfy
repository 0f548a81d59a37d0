/**
 * Entities and constants of the KSZ8851 Ethernet driver (esp32/mods/modeth.c):
 * the command records that travel through the worker's queue, the calls the
 * worker makes on the chip and on the network stack, and the fixed sizes.
 */
module EthTypes {

  /** uint16_t and uint32_t of the C source. */
  type U16 = x: int | 0 <= x < 0x1_0000
  type U32 = x: int | 0 <= x < 0x1_0000_0000

  type Byte = bv8

  /** ETHERNET_CMD_QUEUE_SIZE: capacity of eth_cmdQueue. */
  const QUEUE_SIZE: nat := 100

  /** max_timeout of the interrupt-lockup poll in TASK_ETHERNET. */
  const MAX_TIMEOUT: nat := 50

  /** ETH_MAC_SIZE. */
  const MAC_SIZE: nat := 6

  /** Bits of the KSZ8851 interrupt status register (register 0x92). */
  const INT_PHY: bv16 := 0x8000
  const INT_RX: bv16 := 0x2000
  const INT_RX_OVERRUN: bv16 := 0x0800

  /** Receive-frame-count field of register 0x9C, bits 15..8. */
  const RX_FRAME_CNT_MASK: bv16 := 0xFF00

  /** 100 Mbit/s bit of the port status register. */
  const PORT_STAT_SPEED_100MBIT: bv16 := 0x0400

  /** Value written to the interrupt status register to clear every latched bit. */
  const INT_STATUS_CLEAR_ALL: bv16 := 0xFFFF

  /** The chip registers the core touches, named rather than numbered. */
  datatype Reg = IntStatus | IntMask | RxFrameCntThres | PortStatus

  /**
   * One entry of eth_cmdQueue (modeth_cmd_ctx_t), as a tagged variant: each
   * kind carries only the fields the worker reads for it. `isr` is the
   * interrupt-status snapshot; a TX record owns its buffer and length.
   */
  datatype Command =
    | HwInt(isr: bv16)
    | Rx(isr: bv16)
    | Tx(buf: seq<Byte>, len: U16)
    | ChkLink(isr: bv16)
    | Overrun(isr: bv16)
    | Other(isr: bv16)

  /** system_event_t ids the driver sends or handles. */
  datatype SysEvent = EthStart | EthStop | EthConnected | EthDisconnected | EthGotIp | OtherEvent

  /** Observable calls, in the order they are made: chip primitives, network-stack calls, delays and sent events. */
  datatype Effect =
    | ReadReg(reg: Reg)
    | WriteReg(reg: Reg, value: bv16)
    | RetrievePacket(remaining: nat)
    | EthInput(frameLen: U32)
    | BeginPacketSend(sendLen: U16)
    | SendPacketData(data: seq<Byte>, sendLen: U16)
    | EndPacketSend
    | GetLinkStatus
    | PowerDown
    | ChipInit
    | SpiInit
    | RegisterEvtCb
    | Delay(ms: nat)
    | Emit(event: SysEvent)
    | FreeRxBuff
    | RegisterNic
    | DeregisterNic

  /** Increment of a uint16_t counter, wrapping at 2^16. */
  function Inc16(n: U16): (r: U16)
    ensures n < 0xFFFF ==> r == n + 1
    ensures n == 0xFFFF ==> r == 0
  {
    (n + 1) % 0x1_0000
  }
}
