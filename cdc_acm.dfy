/** The CDC-ACM class layer (USB_Stack/USB/usb_cdc_acm.c): class-request
    dispatch, per-transaction toggle bookkeeping, line-coding validation,
    endpoint reset and the notification gate.

    The layer's globals are the fields of class CdcAcm. Calls into the core
    stack (usb.c, not part of this model) and into the application's hooks are
    recorded, with their arguments, as Actions appended to `log`. */
module UsbCdcAcm {
  import opened Usb

  type Dword = d: int | 0 <= d < 0x1_0000_0000

  // ---------------------------------------------------------------------------
  // CDC class request codes (section 6.2 of the USB CDC 1.2 specification and
  // table 13 of its PSTN subclass)
  // ---------------------------------------------------------------------------

  const SEND_ENCAPSULATED_COMMAND: Byte := 0x00
  const GET_ENCAPSULATED_RESPONSE: Byte := 0x01
  const SET_LINE_CODING: Byte := 0x20
  const GET_LINE_CODING: Byte := 0x21
  const SET_CONTROL_LINE_STATE: Byte := 0x22

  /** Size of the line-coding structure on the wire, and of both line-coding records. */
  const LINE_CODING_SIZE: nat := 7
  /** Size of the static dummy buffer behind the encapsulated command/response requests. */
  const DUMMY_BUFFER_SIZE: nat := 8
  /** Byte count of a serial-state notification armed on the COM IN endpoint. */
  const NOTIFICATION_SIZE: nat := 10
  /** bParityType "None" (table 17 of the USB CDC PSTN subclass specification). */
  const PARITY_NONE: Byte := 0

  // ---------------------------------------------------------------------------
  // Records
  // ---------------------------------------------------------------------------

  /** The 8-byte setup packet. The CDC views of the same bytes
      (g_cdc_set_get_line_coding, g_cdc_set_control_line_state) name wLength
      "Size_of_Structure". */
  datatype SetupPacket = SetupPacket(bmRequestType: Byte, bRequest: Byte, wValue: Word, wIndex: Word, wLength: Word)

  function SizeOfStructure(p: SetupPacket): Word
  {
    p.wLength
  }

  /** Line coding: baud rate, stop bits, parity and data bits. */
  datatype LineCoding = LineCoding(dwDTERate: Dword, bCharFormat: Byte, bParityType: Byte, bDataBits: Byte)

  /** The only line coding the layer accepts: one stop bit, no parity, 8 data bits. */
  predicate LineCodingSupported(c: LineCoding): (ok: bool)
    ensures ok <==> LineCodingBytes(c)[4..] == [0, PARITY_NONE, 8]
  {
    c.bCharFormat == 0 && c.bParityType == 0 && c.bDataBits == 8
  }

  /** The 7 bytes of a line-coding record as they sit in RAM and travel in the
      data stage: dwDTERate little-endian, then the three one-byte fields. */
  function LineCodingBytes(c: LineCoding): (b: seq<Byte>)
    ensures |b| == LINE_CODING_SIZE
    ensures b[4] == c.bCharFormat && b[5] == c.bParityType && b[6] == c.bDataBits
  {
    var r := c.dwDTERate;
    [r % 0x100, (r / 0x100) % 0x100, (r / 0x1_0000) % 0x100, r / 0x100_0000,
     c.bCharFormat, c.bParityType, c.bDataBits]
  }

  function ParseLineCoding(b: seq<Byte>): (c: LineCoding)
    requires |b| == LINE_CODING_SIZE
    ensures c.bCharFormat == b[4] && c.bParityType == b[5] && c.bDataBits == b[6]
  {
    LineCoding(b[0] as int + 0x100 * b[1] as int + 0x1_0000 * b[2] as int + 0x100_0000 * b[3] as int, b[4], b[5], b[6])
  }

  /** The record layout is a bijection between line codings and 7-byte blocks,
      so the bytes a host writes with SET_LINE_CODING and the record the layer
      checks describe each other exactly. */
  lemma {:induction false} LineCodingRoundTrip(c: LineCoding, b: seq<Byte>)
    requires |b| == LINE_CODING_SIZE
    ensures ParseLineCoding(LineCodingBytes(c)) == c
    ensures LineCodingBytes(ParseLineCoding(b)) == b
  {
    RateBytesRoundTrip(c.dwDTERate);
    BytesRateRoundTrip(b[0], b[1], b[2], b[3]);
  }

  lemma RateBytesRoundTrip(r: Dword)
    ensures r % 0x100 + 0x100 * ((r / 0x100) % 0x100) + 0x1_0000 * ((r / 0x1_0000) % 0x100)
            + 0x100_0000 * (r / 0x100_0000) == r
  {
    var q1, q2, q3 := r / 0x100, r / 0x1_0000, r / 0x100_0000;
    assert q2 == q1 / 0x100;
    assert q3 == q2 / 0x100;
    assert r == r % 0x100 + 0x100 * q1;
    assert q1 == q1 % 0x100 + 0x100 * q2;
    assert q2 == q2 % 0x100 + 0x100 * q3;
  }

  lemma BytesRateRoundTrip(b0: Byte, b1: Byte, b2: Byte, b3: Byte)
    ensures var v := b0 as int + 0x100 * b1 as int + 0x1_0000 * b2 as int + 0x100_0000 * b3 as int;
      v % 0x100 == b0 && (v / 0x100) % 0x100 == b1 && (v / 0x1_0000) % 0x100 == b2 && v / 0x100_0000 == b3
  {
    var w2 := b2 as int + 0x100 * b3 as int;
    var w1 := b1 as int + 0x100 * w2;
    var v := b0 as int + 0x100 * w1;
    assert v == b0 as int + 0x100 * b1 as int + 0x1_0000 * b2 as int + 0x100_0000 * b3 as int;
    assert v / 0x100 == w1 && v % 0x100 == b0;
    assert w1 / 0x100 == w2 && w1 % 0x100 == b1;
    assert w2 / 0x100 == b3 && w2 % 0x100 == b2;
    assert v / 0x1_0000 == w2;
    assert v / 0x100_0000 == b3;
  }

  /** Buffer-descriptor table entry: STAT, ADR and CNT. */
  datatype Bd = Bd(stat: Byte, adr: nat, cnt: Byte)

  /** The three endpoint directions the layer owns, each with one BD and one
      status record: COM IN (notifications), DATA OUT and DATA IN. */
  datatype CdcEp = ComIn | DatOut | DatIn

  /** The RAM areas a control transfer can be pointed at. */
  datatype RamBuffer = GetLineCodingReturn | SetLineCodingRecord | DummyBuffer

  function RamBufferSize(b: RamBuffer): nat
  {
    match b
    case GetLineCodingReturn => LINE_CODING_SIZE
    case SetLineCodingRecord => LINE_CODING_SIZE
    case DummyBuffer => DUMMY_BUFFER_SIZE
  }

  /** A call out of the layer, with its arguments. */
  datatype Action =
    | SetRamPtr(buf: RamBuffer)                                   // usb_set_ram_ptr
    | SetupInControlTransfer(kind: MemKind, available: nat, requested: nat) // usb_setup_in_control_transfer
    | InControlTransfer                                           // usb_in_control_transfer
    | SetControlStage(stage: ControlStage)                        // usb_set_control_stage
    | SetNumOutControlBytes(bytes: nat)                           // usb_set_num_out_control_bytes
    | ArmInStatus                                                 // usb_arm_in_status
    | ArmEndpoint(ep: CdcEp, cnt: nat)                            // usb_arm_endpoint on the ep's BD and status
    | ControlLineStateHook                                        // cdc_set_control_line_state
    | LineCodingHook                                              // cdc_set_line_coding
    | NotificationHook                                            // cdc_notification
    | DataOutHook                                                 // cdc_data_out
    | DataInHook                                                  // cdc_data_in

  /** Build-time configuration: endpoint and interface numbers, the data
      endpoint sizes, the fixed buffer addresses, the starting baud, stop bits
      and data bits (the starting parity is always none) and which optional
      requests are compiled in. */
  datatype CdcConfig = CdcConfig(
    comEp: nat, datEp: nat, comEpSize: nat, datEpSize: nat, comInterface: Word,
    comInAddr: nat, datOutAddr: nat, datInAddr: nat,
    startBaud: Dword, startStopBits: Byte, startDataBits: Byte,
    useGetLineCoding: bool, useSetLineCoding: bool, useSetControlLineState: bool)

  /** The two endpoints must differ (they are two labels of one switch) and be
      non-control endpoints; the data endpoint is a full-speed bulk endpoint.
      The COM IN buffer must hold the notification that cdc_arm_com_ep_in
      always arms; the layer itself does not check this. */
  predicate ValidConfig(cfg: CdcConfig)
  {
    0 < cfg.comEp < 16 && 0 < cfg.datEp < 16 && cfg.comEp != cfg.datEp &&
    NOTIFICATION_SIZE <= cfg.comEpSize && 0 < cfg.datEpSize <= 64
  }

  /** The line coding cdc_init reports until a host sets one. */
  function StartCoding(cfg: CdcConfig): LineCoding
  {
    LineCoding(cfg.startBaud, cfg.startStopBits, PARITY_NONE, cfg.startDataBits)
  }

  function BufferAddr(cfg: CdcConfig, e: CdcEp): nat
  {
    match e
    case ComIn => cfg.comInAddr
    case DatOut => cfg.datOutAddr
    case DatIn => cfg.datInAddr
  }

  // ---------------------------------------------------------------------------
  // Class-request dispatch, as a function of the setup packet
  // ---------------------------------------------------------------------------

  /** What cdc_class_request does: whether it claims the request, the calls it
      makes, and whether it starts waiting for a line coding. */
  datatype Reply = Reply(handled: bool, actions: seq<Action>, startsWait: bool)

  function ClassRequestSpec(cfg: CdcConfig, p: SetupPacket): (r: Reply)
    ensures r.startsWait ==> r.handled && p.bRequest == SET_LINE_CODING
    ensures r.handled ==>
              |r.actions| > 0 &&
              (r.actions[|r.actions| - 1].SetControlStage? || r.actions[|r.actions| - 1] == ArmInStatus)
  {
    var req := p.bRequest;
    if req == GET_LINE_CODING && cfg.useGetLineCoding then
      Reply(true, [SetRamPtr(GetLineCodingReturn),
                   SetupInControlTransfer(Ram, LINE_CODING_SIZE, SizeOfStructure(p)),
                   InControlTransfer, SetControlStage(DataInStage)], false)
    else if req == SET_LINE_CODING && cfg.useSetLineCoding then
      if SizeOfStructure(p) > LINE_CODING_SIZE then Reply(false, [SetRamPtr(SetLineCodingRecord)], false)
      else Reply(true, [SetRamPtr(SetLineCodingRecord), SetNumOutControlBytes(SizeOfStructure(p)),
                        SetControlStage(DataOutStage)], true)
    else if req == SET_CONTROL_LINE_STATE && cfg.useSetControlLineState then
      if p.wIndex != cfg.comInterface then Reply(false, [], false)
      else Reply(true, [ControlLineStateHook, ArmInStatus], false)
    else if req == SEND_ENCAPSULATED_COMMAND then
      if p.wLength > DUMMY_BUFFER_SIZE then Reply(false, [SetRamPtr(DummyBuffer)], false)
      else Reply(true, [SetRamPtr(DummyBuffer), SetNumOutControlBytes(p.wLength),
                        SetControlStage(DataOutStage)], false)
    else if req == GET_ENCAPSULATED_RESPONSE then
      Reply(true, [SetRamPtr(DummyBuffer), SetupInControlTransfer(Ram, DUMMY_BUFFER_SIZE, p.wLength),
                   InControlTransfer, SetControlStage(DataInStage)], false)
    else
      Reply(false, [], false)
  }

  /** An action that moves the control transfer on to its next stage. */
  predicate SelectsStage(a: Action)
  {
    a.SetControlStage? || a.ArmInStatus?
  }

  /** The RAM area the reply points the control transfer at, if any. */
  function RamTarget(actions: seq<Action>): (t: Option<RamBuffer>)
    ensures t.Some? ==> SetRamPtr(t.value) in actions
    ensures t.None? ==> forall k :: 0 <= k < |actions| ==> !actions[k].SetRamPtr?
  {
    if actions == [] then None
    else if actions[0].SetRamPtr? then Some(actions[0].buf)
    else RamTarget(actions[1..])
  }

  /** A request code other than the five CDC requests is refused and nothing is
      called: no control stage is selected. */
  lemma UnknownRequestRefused(cfg: CdcConfig, p: SetupPacket)
    requires p.bRequest !in {SEND_ENCAPSULATED_COMMAND, GET_ENCAPSULATED_RESPONSE,
                             SET_LINE_CODING, GET_LINE_CODING, SET_CONTROL_LINE_STATE}
    ensures ClassRequestSpec(cfg, p) == Reply(false, [], false)
  {
  }

  /** A refused request never selects a stage, never sets a byte count and never
      starts the wait for a line coding; at most it has pointed the transfer at
      a buffer. An accepted request ends by selecting exactly one stage. */
  lemma {:induction false} RefusalSelectsNoStage(cfg: CdcConfig, p: SetupPacket)
    ensures var r := ClassRequestSpec(cfg, p);
      !r.handled ==> !r.startsWait && |r.actions| <= 1 &&
                     forall k :: 0 <= k < |r.actions| ==> r.actions[k].SetRamPtr?
    ensures var r := ClassRequestSpec(cfg, p);
      r.handled ==> |r.actions| > 0 && SelectsStage(r.actions[|r.actions| - 1]) &&
                    forall k :: 0 <= k < |r.actions| - 1 ==> !SelectsStage(r.actions[k])
  {
  }

  /** No accepted request can make the data stage overrun the RAM area it
      targets: an OUT byte count never exceeds that area's size (7 bytes for the
      line-coding record, 8 for the dummy buffer), and an IN transfer offers
      exactly the size of the area it reads. */
  lemma {:induction false} DataStageStaysInBuffer(cfg: CdcConfig, p: SetupPacket, k: nat)
    requires k < |ClassRequestSpec(cfg, p).actions|
    ensures var acts := ClassRequestSpec(cfg, p).actions;
      acts[k].SetNumOutControlBytes? ==>
        RamTarget(acts).Some? && acts[k].bytes <= RamBufferSize(RamTarget(acts).value)
    ensures var acts := ClassRequestSpec(cfg, p).actions;
      acts[k].SetupInControlTransfer? ==>
        RamTarget(acts).Some? && acts[k].available == RamBufferSize(RamTarget(acts).value)
  {
  }

  /** SET_LINE_CODING (when compiled in) is accepted exactly when the structure
      size is at most 7; then the OUT count is that size, the layer starts
      waiting for the line coding and selects the DATA OUT stage. */
  lemma SetLineCodingRule(cfg: CdcConfig, p: SetupPacket)
    requires cfg.useSetLineCoding && p.bRequest == SET_LINE_CODING
    ensures ClassRequestSpec(cfg, p).handled <==> SizeOfStructure(p) <= LINE_CODING_SIZE
    ensures ClassRequestSpec(cfg, p).startsWait <==> ClassRequestSpec(cfg, p).handled
    ensures ClassRequestSpec(cfg, p).handled ==>
              SetNumOutControlBytes(SizeOfStructure(p)) in ClassRequestSpec(cfg, p).actions &&
              ClassRequestSpec(cfg, p).actions[|ClassRequestSpec(cfg, p).actions| - 1] == SetControlStage(DataOutStage)
  {
  }

  /** SEND_ENCAPSULATED_COMMAND is accepted exactly when wLength is at most 8;
      then the OUT count is wLength and the stage is DATA OUT. */
  lemma SendEncapsulatedCommandRule(cfg: CdcConfig, p: SetupPacket)
    requires p.bRequest == SEND_ENCAPSULATED_COMMAND
    ensures ClassRequestSpec(cfg, p).handled <==> p.wLength <= DUMMY_BUFFER_SIZE
    ensures ClassRequestSpec(cfg, p).handled ==>
              ClassRequestSpec(cfg, p).actions ==
              [SetRamPtr(DummyBuffer), SetNumOutControlBytes(p.wLength), SetControlStage(DataOutStage)]
  {
  }

  /** SET_CONTROL_LINE_STATE (when compiled in) is accepted exactly when it is
      addressed to the communication interface; then the line-state hook runs
      and the IN status stage is armed. */
  lemma SetControlLineStateRule(cfg: CdcConfig, p: SetupPacket)
    requires cfg.useSetControlLineState && p.bRequest == SET_CONTROL_LINE_STATE
    ensures ClassRequestSpec(cfg, p).handled <==> p.wIndex == cfg.comInterface
    ensures ClassRequestSpec(cfg, p).handled ==> ClassRequestSpec(cfg, p).actions == [ControlLineStateHook, ArmInStatus]
  {
  }

  /** The two GET requests are always accepted: a RAM IN transfer offering 7
      bytes (line coding) or 8 bytes (encapsulated response) against the
      host's requested length, in the DATA IN stage. */
  lemma GetRequestsRule(cfg: CdcConfig, p: SetupPacket)
    requires (p.bRequest == GET_LINE_CODING && cfg.useGetLineCoding) || p.bRequest == GET_ENCAPSULATED_RESPONSE
    ensures ClassRequestSpec(cfg, p).handled && !ClassRequestSpec(cfg, p).startsWait
    ensures SetupInControlTransfer(Ram, if p.bRequest == GET_LINE_CODING then LINE_CODING_SIZE else DUMMY_BUFFER_SIZE, p.wLength)
            in ClassRequestSpec(cfg, p).actions
    ensures ClassRequestSpec(cfg, p).actions[|ClassRequestSpec(cfg, p).actions| - 1] == SetControlStage(DataInStage)
  {
  }

  // ---------------------------------------------------------------------------
  // The layer's state
  // ---------------------------------------------------------------------------

  /** A table holding an entry for each of the layer's endpoint directions. */
  predicate HasAllEps<V>(m: map<CdcEp, V>)
  {
    forall e: CdcEp :: e in m
  }

  class CdcAcm {
    const cfg: CdcConfig

    /** The endpoint buffers g_cdc_com_ep_in, g_cdc_dat_ep_out, g_cdc_dat_ep_in. */
    const comEpIn: array<Byte>
    const datEpOut: array<Byte>
    const datEpIn: array<Byte>

    /** The setup packet, written by the hardware for each control transfer. */
    var setup: SetupPacket
    /** g_cdc_get_line_coding_return: what GET_LINE_CODING reports. */
    var getCoding: LineCoding
    /** g_cdc_set_line_coding: where a SET_LINE_CODING data stage lands. */
    var setCoding: LineCoding

    var setLineCodingWait: bool
    var numDataOut: Byte
    var sendNotification: bool
    var sentLastNotification: bool

    /** The layer's three BD table entries and endpoint status records. */
    var bds: map<CdcEp, Bd>
    var epStat: map<CdcEp, EpStat>

    /** Calls made out of the layer, oldest first. */
    var log: seq<Action>

    ghost predicate Valid()
      reads this
    {
      ValidConfig(cfg) &&
      comEpIn.Length == cfg.comEpSize &&
      datEpOut.Length == cfg.datEpSize && datEpIn.Length == cfg.datEpSize &&
      datEpOut != datEpIn &&
      HasAllEps(bds) && HasAllEps(epStat)
    }

    /** The globals as the C runtime leaves them before cdc_init runs: zeroed,
        except the notification flags' initialisers. */
    constructor (cfg: CdcConfig)
      requires ValidConfig(cfg)
      ensures Valid() && this.cfg == cfg
      ensures fresh(comEpIn) && fresh(datEpOut) && fresh(datEpIn)
      ensures !setLineCodingWait && numDataOut == 0
      ensures sentLastNotification && !sendNotification
      ensures log == []
    {
      this.cfg := cfg;
      comEpIn := new Byte[cfg.comEpSize];
      datEpOut := new Byte[cfg.datEpSize];
      datEpIn := new Byte[cfg.datEpSize];
      setup := SetupPacket(0, 0, 0, 0, 0);
      getCoding := LineCoding(0, 0, 0, 0);
      setCoding := LineCoding(0, 0, 0, 0);
      setLineCodingWait := false;
      numDataOut := 0;
      sendNotification := false;
      sentLastNotification := true;
      bds := map[ComIn := Bd(0, 0, 0), DatOut := Bd(0, 0, 0), DatIn := Bd(0, 0, 0)];
      epStat := map[ComIn := EpStat(0, 0, 0), DatOut := EpStat(0, 0, 0), DatIn := EpStat(0, 0, 0)];
      log := [];
      new;
      forall e: CdcEp ensures e in bds && e in epStat {
        match e
        case ComIn =>
        case DatOut =>
        case DatIn =>
      }
    }

    /** cdc_arm_com_ep_in: arm COM IN for a 10-byte notification. */
    method ArmComEpIn()
      modifies this`log
      ensures log == old(log) + [ArmEndpoint(ComIn, NOTIFICATION_SIZE)]
    {
      log := log + [ArmEndpoint(ComIn, NOTIFICATION_SIZE)];
    }

    /** cdc_arm_data_ep_out: arm DATA OUT for a full packet. */
    method ArmDataEpOut()
      modifies this`log
      ensures log == old(log) + [ArmEndpoint(DatOut, cfg.datEpSize)]
    {
      log := log + [ArmEndpoint(DatOut, cfg.datEpSize)];
    }

    /** cdc_arm_data_ep_in: arm DATA IN to send `cnt` bytes. */
    method ArmDataEpIn(cnt: Byte)
      modifies this`log
      ensures log == old(log) + [ArmEndpoint(DatIn, cnt)]
    {
      log := log + [ArmEndpoint(DatIn, cnt)];
    }

    /** cdc_class_request: claim or refuse the pending setup packet. */
    method ClassRequest() returns (handled: bool)
      modifies this`log, this`setLineCodingWait
      ensures var r := ClassRequestSpec(cfg, setup);
        handled == r.handled && log == old(log) + r.actions &&
        setLineCodingWait == (r.startsWait || old(setLineCodingWait))
    {
      var req := setup.bRequest;
      if req == GET_LINE_CODING && cfg.useGetLineCoding {
        log := log + [SetRamPtr(GetLineCodingReturn)];
        log := log + [SetupInControlTransfer(Ram, LINE_CODING_SIZE, SizeOfStructure(setup))];
        log := log + [InControlTransfer];
        log := log + [SetControlStage(DataInStage)];
        return true;
      } else if req == SET_LINE_CODING && cfg.useSetLineCoding {
        log := log + [SetRamPtr(SetLineCodingRecord)];
        if SizeOfStructure(setup) > LINE_CODING_SIZE { return false; }
        log := log + [SetNumOutControlBytes(SizeOfStructure(setup))];
        setLineCodingWait := true;
        log := log + [SetControlStage(DataOutStage)];
        return true;
      } else if req == SET_CONTROL_LINE_STATE && cfg.useSetControlLineState {
        if setup.wIndex != cfg.comInterface { return false; }
        log := log + [ControlLineStateHook];
        log := log + [ArmInStatus];
        return true;
      } else if req == SEND_ENCAPSULATED_COMMAND {
        log := log + [SetRamPtr(DummyBuffer)];
        if setup.wLength > DUMMY_BUFFER_SIZE { return false; }
        log := log + [SetNumOutControlBytes(setup.wLength)];
        log := log + [SetControlStage(DataOutStage)];
        return true;
      } else if req == GET_ENCAPSULATED_RESPONSE {
        log := log + [SetRamPtr(DummyBuffer)];
        log := log + [SetupInControlTransfer(Ram, DUMMY_BUFFER_SIZE, setup.wLength)];
        log := log + [InControlTransfer];
        log := log + [SetControlStage(DataInStage)];
        return true;
      } else {
        return false;
      }
    }

    /** cdc_clear_ep_toggle: all three data toggles back to DATA0. */
    method ClearEpToggle()
      requires Valid()
      modifies this`epStat
      ensures Valid()
      ensures forall e: CdcEp :: epStat[e] == old(epStat[e]).(dataToggle := 0)
    {
      epStat := epStat[ComIn := epStat[ComIn].(dataToggle := 0)];
      epStat := epStat[DatOut := epStat[DatOut].(dataToggle := 0)];
      epStat := epStat[DatIn := epStat[DatIn].(dataToggle := 0)];
      forall e: CdcEp ensures epStat[e] == old(epStat[e]).(dataToggle := 0) {
        match e
        case ComIn =>
        case DatOut =>
        case DatIn =>
      }
    }

    /** cdc_init (configuration without USE_RTS, USE_DTR and USE_DCD): the
        starting line coding, the BDs at STAT 0 on their fixed buffers, halts
        and toggles cleared, DATA OUT armed for a full packet, no wait. */
    method Init()
      requires Valid()
      modifies this`getCoding, this`bds, this`epStat, this`log, this`setLineCodingWait
      ensures Valid()
      ensures getCoding == if cfg.useGetLineCoding then StartCoding(cfg) else old(getCoding)
      ensures forall e: CdcEp :: bds[e] == old(bds[e]).(stat := 0, adr := BufferAddr(cfg, e))
      ensures forall e: CdcEp :: epStat[e] == old(epStat[e]).(dataToggle := 0, halt := 0)
      ensures log == old(log) + [ArmEndpoint(DatOut, cfg.datEpSize)]
      ensures !setLineCodingWait
    {
      if cfg.useGetLineCoding {
        getCoding := getCoding.(dwDTERate := cfg.startBaud);
        getCoding := getCoding.(bCharFormat := cfg.startStopBits);
        getCoding := getCoding.(bParityType := PARITY_NONE);
        getCoding := getCoding.(bDataBits := cfg.startDataBits);
      }
      bds := bds[ComIn := bds[ComIn].(stat := 0, adr := cfg.comInAddr)]
                [DatOut := bds[DatOut].(stat := 0, adr := cfg.datOutAddr)]
                [DatIn := bds[DatIn].(stat := 0, adr := cfg.datInAddr)];
      epStat := epStat[ComIn := epStat[ComIn].(halt := 0)]
                      [DatOut := epStat[DatOut].(halt := 0)]
                      [DatIn := epStat[DatIn].(halt := 0)];
      ClearEpToggle();
      ArmDataEpOut();
      setLineCodingWait := false;
      forall e: CdcEp
        ensures bds[e] == old(bds[e]).(stat := 0, adr := BufferAddr(cfg, e))
        ensures epStat[e] == old(epStat[e]).(dataToggle := 0, halt := 0)
      {
        match e
        case ComIn =>
        case DatOut =>
        case DatIn =>
      }
    }

    /** The status record a completed transaction on endpoint `endp` in
        direction `dir` belongs to, if it is one of the layer's. The COM
        endpoint is IN-only, so its direction is not looked at. */
    function TransactionTarget(u: Ustat): (t: Option<CdcEp>)
      reads this
      ensures t == Some(ComIn) <==> u.endp as int == cfg.comEp
      ensures t == Some(DatOut) <==> u.endp as int == cfg.datEp && u.dir == 0 && cfg.comEp != cfg.datEp
      ensures t == Some(DatIn) <==> u.endp as int == cfg.datEp && u.dir == 1 && cfg.comEp != cfg.datEp
    {
      if u.endp as int == cfg.comEp then Some(ComIn)
      else if u.endp as int == cfg.datEp then (if UstatDirection(u) == Out then Some(DatOut) else Some(DatIn))
      else None
    }

    /** cdc_tasks: after a completed transaction reported by USTAT `u`, flip the
        data toggle of exactly the endpoint direction it belongs to and run that
        direction's hook; on DATA OUT also latch the received byte count. A
        transaction on any other endpoint changes nothing. */
    method Tasks(u: Ustat)
      requires Valid()
      modifies this`epStat, this`numDataOut, this`log
      ensures Valid()
      ensures var t := TransactionTarget(u);
        if t.None? then epStat == old(epStat) && log == old(log)
        else epStat == old(epStat)[t.value := FlipToggle(old(epStat)[t.value])]
      ensures TransactionTarget(u) == Some(ComIn) ==> log == old(log) + [NotificationHook]
      ensures TransactionTarget(u) == Some(DatOut) ==> log == old(log) + [DataOutHook]
      ensures TransactionTarget(u) == Some(DatIn) ==> log == old(log) + [DataInHook]
      ensures numDataOut == if TransactionTarget(u) == Some(DatOut) then bds[DatOut].cnt else old(numDataOut)
    {
      var ep := u.endp as int;
      if ep == cfg.comEp {
        epStat := epStat[ComIn := FlipToggle(epStat[ComIn])];
        log := log + [NotificationHook];
      } else if ep == cfg.datEp {
        if UstatDirection(u) == Out {
          epStat := epStat[DatOut := FlipToggle(epStat[DatOut])];
          numDataOut := bds[DatOut].cnt;
          log := log + [DataOutHook];
        } else {
          epStat := epStat[DatIn := FlipToggle(epStat[DatIn])];
          log := log + [DataInHook];
        }
      }
    }

    /** cdc_out_control_tasks: at the end of an OUT control transfer, if a
        line coding was awaited, stop waiting; accept it only if it is 8N1, and
        then copy it, field by field, into the record GET_LINE_CODING reports. */
    method OutControlTasks() returns (ok: bool)
      modifies this`setLineCodingWait, this`getCoding, this`log
      ensures ok <==> cfg.useSetLineCoding && old(setLineCodingWait) && LineCodingSupported(setCoding)
      ensures setLineCodingWait == (old(setLineCodingWait) && !cfg.useSetLineCoding)
      ensures ok ==> getCoding == setCoding && log == old(log) + [LineCodingHook]
      ensures !ok ==> getCoding == old(getCoding) && log == old(log)
    {
      if cfg.useSetLineCoding && setLineCodingWait {
        setLineCodingWait := false;
        if setCoding.bCharFormat != 0 || setCoding.bParityType != 0 || setCoding.bDataBits != 8 {
          return false;
        }
        getCoding := getCoding.(dwDTERate := setCoding.dwDTERate);
        getCoding := getCoding.(bCharFormat := setCoding.bCharFormat);
        getCoding := getCoding.(bParityType := setCoding.bParityType);
        getCoding := getCoding.(bDataBits := setCoding.bDataBits);
        log := log + [LineCodingHook];
        return true;
      }
      return false;
    }

    /** cdc_notification_tasks: arm a notification only when the last one has
        gone and a new one is pending; doing so clears both flags. */
    method NotificationTasks()
      modifies this`sendNotification, this`sentLastNotification, this`log
      ensures var fire := old(sentLastNotification) && old(sendNotification);
        (fire ==> !sendNotification && !sentLastNotification && log == old(log) + [ArmEndpoint(ComIn, NOTIFICATION_SIZE)]) &&
        (!fire ==> sendNotification == old(sendNotification) &&
                   sentLastNotification == old(sentLastNotification) && log == old(log))
    {
      if sentLastNotification && sendNotification {
        sendNotification := false;
        sentLastNotification := false;
        ArmComEpIn();
      }
    }
  }

  /** After a SET_LINE_CODING whose data stage delivered the 7 bytes `b`, a
      successful cdc_out_control_tasks makes GET_LINE_CODING report exactly
      those 7 bytes: the set-then-get round trip a terminal program relies on. */
  method SetThenGetLineCoding(cdc: CdcAcm, b: seq<Byte>, get: SetupPacket) returns (ok: bool)
    requires cdc.Valid() && cdc.cfg.useSetLineCoding && cdc.cfg.useGetLineCoding
    requires cdc.setLineCodingWait && |b| == LINE_CODING_SIZE
    requires get.bRequest == GET_LINE_CODING
    modifies cdc
    ensures ok <==> LineCodingSupported(ParseLineCoding(b))
    ensures ok ==> LineCodingBytes(cdc.getCoding) == b
    ensures ok ==> cdc.log == old(cdc.log) + [LineCodingHook, SetRamPtr(GetLineCodingReturn),
                              SetupInControlTransfer(Ram, LINE_CODING_SIZE, get.wLength),
                              InControlTransfer, SetControlStage(DataInStage)]
  {
    cdc.setCoding := ParseLineCoding(b);
    ok := cdc.OutControlTasks();
    if ok {
      LineCodingRoundTrip(cdc.getCoding, b);
      cdc.setup := get;
      var handled := cdc.ClassRequest();
    }
  }
}
