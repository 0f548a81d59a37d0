/**
 * The driver as the C source keeps it: one object whose fields the worker
 * task, the interrupt bridge, the event handler and eth_init_helper update
 * in place. Each method is proved to perform the matching transition of
 * module Worker.
 */
module Driver {
  import opened EthTypes
  import opened Wrappers
  import opened Classifier
  import opened FramePumps
  import opened Lockup
  import opened MacAddress
  import Worker

  class EthernetDriver {
    var queue: seq<Command>        // eth_cmdQueue, front first
    var linkStatus: bool           // eth_obj.link_status
    var started: bool              // ETHERNET_EVT_STARTED
    var connected: bool            // ETHERNET_EVT_CONNECTED
    var rxBuff: bool               // modeth_rxBuff holds an allocation
    var phase: Worker.Phase
    var mac: seq<Byte>             // ethernet_mac
    var objMac: seq<Byte>          // eth_obj.mac
    var resetsIntPin: U16          // num_resets_int_pin
    var resetsOverflow: U16        // num_resets_overflow
    var strangeIsr: U16            // num_strange_isr
    var strangeIsrZero: U16        // num_strange_isr_zero
    var trace: seq<Effect>         // calls made so far

    function Abs(): Worker.Eth
      reads this
    {
      Worker.Eth(queue, linkStatus, started, connected, rxBuff, phase, mac, objMac,
                 resetsIntPin, resetsOverflow, strangeIsr, strangeIsrZero, trace)
    }

    ghost predicate Valid()
      reads this
    {
      Worker.Inv(Abs())
    }

    constructor ()
      ensures Abs() == Worker.Initial() && Valid()
    {
      queue, linkStatus, started, connected, rxBuff := [], false, false, false, false;
      phase := Worker.Boot;
      mac, objMac := [0, 0, 0, 0, 0, 0], [0, 0, 0, 0, 0, 0];
      resetsIntPin, resetsOverflow, strangeIsr, strangeIsrZero := 0, 0, 0, 0;
      trace := [];
      Worker.InitialInv();
    }

    /** is_eth_link_up: true only while CONNECTED is the last event sent. */
    method IsLinkUp() returns (up: bool)
      requires Valid()
      ensures up == linkStatus
      ensures up ==> Worker.LastEvent(trace) == Some(EthConnected)
    {
      up := linkStatus;
    }

    /** modeth_get_mac. */
    method GetMac() returns (m: seq<Byte>)
      requires Valid()
      ensures m == mac && |m| == MAC_SIZE
    {
      m := mac;
    }

    /**
     * ksz8851_evt_callback, in interrupt context: front-push HW_INT; the
     * FromISR send's result is ignored, so a full queue drops it. The
     * record's snapshot is never initialised: `uninitIsr` stands for it.
     */
    method EvtCallback(uninitIsr: bv16)
      requires Valid() && phase != Worker.Boot
      modifies this
      ensures Abs() == Worker.IsrPush(old(Abs()), uninitIsr) && Valid()
    {
      if |queue| < QUEUE_SIZE {
        queue := [HwInt(uninitIsr)] + queue;
      }
      Worker.IsrPushInv(old(Abs()), uninitIsr);
    }

    /** A TX request from the network stack, back-pushed once the queue has room. */
    method QueueTx(buf: seq<Byte>, len: U16)
      requires Valid() && |queue| < QUEUE_SIZE
      modifies this
      ensures Abs() == Worker.EnqueueTx(old(Abs()), buf, len) && Valid()
    {
      queue := queue + [Tx(buf, len)];
      Worker.EnqueueTxInv(old(Abs()), buf, len);
    }

    /** processInterrupt: read and clear the status register, then classify the snapshot. */
    method ProcessInterrupt(isr: bv16)
      requires |queue| <= QUEUE_SIZE
      modifies this`queue, this`phase, this`trace
      ensures Abs() == Worker.Classify(old(Abs()), isr)
    {
      trace := trace + [ReadReg(IntStatus), WriteReg(IntStatus, INT_STATUS_CLEAR_ALL)];
      var r := ClassifySnapshot(queue, isr);
      queue := r.queue;
      if r.Blocked? {
        phase := Worker.Stalled;
      }
    }

    /**
     * process_rx: `frameLens[i]` is the length the i-th frame retrieval
     * reports. Returns totalLen, the uint32_t sum of the non-empty lengths.
     */
    method ProcessRx(frameReg: bv16, frameLens: seq<U32>) returns (totalLen: U32)
      requires |frameLens| == FrameCount(frameReg)
      modifies this`trace
      ensures Abs() == Worker.ReceiveFrames(old(Abs()), frameReg, frameLens)
      ensures totalLen == RxTotal(frameLens)
    {
      var calls;
      calls, totalLen := DrainFrames(FrameCount(frameReg), frameLens);
      calls := [ReadReg(RxFrameCntThres)] + calls;
      trace := trace + calls;
    }

    /** process_tx. */
    method ProcessTx(buf: seq<Byte>, len: U16)
      modifies this`trace
      ensures Abs() == Worker.Transmit(old(Abs()), buf, len)
    {
      if linkStatus {
        trace := trace + [BeginPacketSend(len)];
        trace := trace + [SendPacketData(buf, len)];
        trace := trace + [EndPacketSend];
      }
    }

    /** The recovery sequence shared by the OVERRUN case and the lockup poll. */
    method ResetChip()
      modifies this`queue, this`linkStatus, this`trace
      ensures queue == [] && !linkStatus && trace == old(trace) + Worker.RESET_SEQUENCE
    {
      queue := [];
      linkStatus := false;
      trace := trace + [PowerDown, Emit(EthDisconnected), Delay(100), ChipInit];
    }

    /** The receive-timeout branch: `pins` are the successive reads of the interrupt pin. */
    method LockupPoll(pins: seq<bool>)
      requires |pins| > MAX_TIMEOUT
      modifies this`queue, this`linkStatus, this`resetsIntPin, this`trace
      ensures var r := Worker.PollLockup(old(Abs()), pins);
        queue == r.queue && linkStatus == r.linkStatus && resetsIntPin == r.resetsIntPin && trace == r.trace
      ensures Abs() == Worker.PollLockup(old(Abs()), pins)
    {
      var timeout, delays := PollInterruptPin(pins);
      trace := trace + delays;
      if timeout >= MAX_TIMEOUT {
        resetsIntPin := Inc16(resetsIntPin);
        ResetChip();
      }
    }

    /** The switch on a dequeued command. */
    method DispatchCommand(entry: Command, env: Worker.ChipReads)
      requires Valid() && phase == Worker.Running && Worker.ReadsFit(env)
      modifies this
      ensures Abs() == Worker.Dispatch(old(Abs()), entry, env) && Valid()
    {
      Worker.DispatchInv(Abs(), entry, env);
      match entry
      case Tx(buf, len) =>
        ProcessTx(buf, len);
      case HwInt(_) =>
        ProcessInterrupt(env.intStatus);
      case Rx(_) =>
        var _ := ProcessRx(env.rxFrameReg, env.frameLens);
      case ChkLink(_) =>
        CheckLink(env.linkUp);
      case Overrun(_) =>
        ResetChip();
      case Other(isr) =>
        CountStrange(isr);
    }

    /** ETH_CMD_CHK_LINK: read the link state, record it and send the matching event. */
    method CheckLink(linkUp: bool)
      modifies this`linkStatus, this`trace
      ensures Abs() == Worker.CheckLink(old(Abs()), linkUp)
    {
      trace := trace + [GetLinkStatus];
      if linkUp {
        linkStatus := true;
        trace := trace + [Emit(EthConnected)];
      } else {
        linkStatus := false;
        trace := trace + [Emit(EthDisconnected)];
      }
    }

    /** The default case of the switch. */
    method CountStrange(isr: bv16)
      modifies this`strangeIsr, this`strangeIsrZero
      ensures Abs() == Worker.Unmatched(old(Abs()), isr)
    {
      strangeIsr := Inc16(strangeIsr);
      if isr == 0 {
        strangeIsrZero := Inc16(strangeIsrZero);
      }
    }

    /** One iteration of the for(;;) loop of TASK_ETHERNET. */
    method RunOnce(env: Worker.ChipReads)
      requires Valid() && phase == Worker.Running && Worker.ReadsFit(env)
      modifies this
      ensures Abs() == Worker.Step(old(Abs()), env) && Valid()
    {
      if !started {
        queue := [];
        rxBuff := false;
        linkStatus := false;
        trace := trace + [FreeRxBuff, Emit(EthDisconnected), WriteReg(IntMask, 0x0000)];
        // goto eth_start, which resets the queue again
        queue := [];
        phase := Worker.WaitingForStart;
      } else if queue != [] {
        var entry := queue[0];
        Worker.DequeueInv(Abs());
        queue := queue[1..];
        DispatchCommand(entry, env);
      } else {
        LockupPoll(env.pins);
      }
      Worker.StepInv(old(Abs()), env);
    }

    /**
     * First run of the task: esp_read_mac's outcome is `readMac`, the
     * KSZ8851_MAC0..5 defaults are `defaults`; then SPI init, ISR bridge
     * registration and eth_start's queue reset.
     */
    method Boot(readMac: Option<seq<Byte>>, defaults: seq<Byte>)
      requires Valid() && phase == Worker.Boot
      requires |defaults| == MAC_SIZE
      requires readMac.Some? ==> |readMac.value| == MAC_SIZE
      modifies this
      ensures Abs() == Worker.BootTask(old(Abs()), readMac, defaults) && Valid()
    {
      match readMac {
        case None =>
          mac := defaults;
        case Some(factory) =>
          mac := factory;
          if mac[4] == RESERVED_BYTE4 {
            mac := mac[4 := mac[4] | (mac[5] | 0x01)];
          }
      }
      objMac := mac;
      trace := trace + [SpiInit, RegisterEvtCb];
      queue := [];
      phase := Worker.WaitingForStart;
      Worker.BootTaskInv(old(Abs()), readMac, defaults);
    }

    /** Past eth_start's wait for ETHERNET_EVT_STARTED: initialise the chip and send START. */
    method Start()
      requires Valid() && phase == Worker.WaitingForStart && started
      modifies this
      ensures Abs() == Worker.Start(old(Abs())) && Valid()
    {
      trace := trace + [ChipInit, Emit(EthStart)];
      phase := Worker.Running;
      Worker.StartInv(old(Abs()));
    }

    /** The start-once guard of eth_init_helper; `allocOk` is whether heap_caps_malloc succeeded. */
    method InitHelper(allocOk: bool) returns (r: Result<(), Worker.InitError>)
      requires Valid()
      modifies this
      ensures (Abs(), r) == Worker.Init(old(Abs()), allocOk) && Valid()
    {
      r := Ok(());
      if !started {
        rxBuff := allocOk;
        if !allocOk {
          r := Err(Worker.RxBufferAllocFailed);
        } else {
          started := true;
        }
      }
      Worker.InitInv(old(Abs()), allocOk);
    }

    /** modeth_event_handler. */
    method EventHandler(ev: SysEvent)
      requires Valid()
      modifies this
      ensures Abs() == Worker.HandleEvent(old(Abs()), ev) && Valid()
    {
      match ev {
        case EthDisconnected =>
          trace := trace + [DeregisterNic];
          connected := false;
        case EthGotIp =>
          trace := trace + [RegisterNic];
          connected := true;
        case EthStop =>
          started := false;
        case _ =>
      }
      Worker.HandleEventInv(old(Abs()), ev);
    }
  }
}
