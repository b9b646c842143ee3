/** Constants, address layout and bit-field layouts of the core USB stack header
    (USB_Stack/USB/usb.h). Everything here is pure: the header holds no function
    bodies, and its one effectful macro, the request-error stall, is modelled as
    the list of stall calls it issues. */
module Usb {

  type Byte = b: int | 0 <= b < 256
  type Word = w: int | 0 <= w < 0x1_0000

  // ---------------------------------------------------------------------------
  // Device states (STATE_*)
  // ---------------------------------------------------------------------------

  datatype DeviceState = Detached | Attached | Powered | Default | Address | Suspended | Configured

  /** The numeric value the stack stores for a device state and that
      usb_get_state() returns. */
  function StateCode(s: DeviceState): (c: nat)
    ensures c <= 6
  {
    match s
    case Detached => 0
    case Attached => 1
    case Powered => 2
    case Default => 3
    case Address => 4
    case Suspended => 5
    case Configured => 6
  }

  function DecodeState(c: nat): (r: Option<DeviceState>)
    ensures r.Some? <==> c <= 6
    ensures r.Some? ==> StateCode(r.value) == c
  {
    if c == 0 then Some(Detached)
    else if c == 1 then Some(Attached)
    else if c == 2 then Some(Powered)
    else if c == 3 then Some(Default)
    else if c == 4 then Some(Address)
    else if c == 5 then Some(Suspended)
    else if c == 6 then Some(Configured)
    else None
  }

  /** Distinct states have distinct codes, and decoding inverts encoding. */
  lemma StateCodeInjective(s: DeviceState, t: DeviceState)
    ensures StateCode(s) == StateCode(t) <==> s == t
    ensures DecodeState(StateCode(s)) == Some(s)
  {
  }

  /** The application's `usb_get_state() < STATE_CONFIGURED` test holds exactly
      when the device is not configured, the suspended state included. */
  lemma BelowConfiguredMeansNotConfigured(s: DeviceState)
    ensures StateCode(s) < StateCode(Configured) <==> s != Configured
    ensures s == Suspended ==> StateCode(s) < StateCode(Configured)
  {
  }

  // ---------------------------------------------------------------------------
  // Control transfer stages (*_STAGE)
  // ---------------------------------------------------------------------------

  datatype ControlStage = SetupStage | DataInStage | DataOutStage | StatusInStage | StatusOutStage

  function StageCode(s: ControlStage): (c: nat)
    ensures c < 5
  {
    match s
    case SetupStage => 0
    case DataInStage => 1
    case DataOutStage => 2
    case StatusInStage => 3
    case StatusOutStage => 4
  }

  function DecodeStage(c: nat): (r: Option<ControlStage>)
    ensures r.Some? <==> c < 5
    ensures r.Some? ==> StageCode(r.value) == c
  {
    if c == 0 then Some(SetupStage)
    else if c == 1 then Some(DataInStage)
    else if c == 2 then Some(DataOutStage)
    else if c == 3 then Some(StatusInStage)
    else if c == 4 then Some(StatusOutStage)
    else None
  }

  /** The five stage values are pairwise distinct, and decoding inverts
      encoding. */
  lemma StageCodesDistinct(s: ControlStage, t: ControlStage)
    ensures StageCode(s) == StageCode(t) <==> s == t
    ensures DecodeStage(StageCode(s)) == Some(s)
  {
  }

  // ---------------------------------------------------------------------------
  // Memory kinds (ROM / RAM), directions, ping-pong policy, buffer descriptors
  // ---------------------------------------------------------------------------

  /** Source kind of an IN control transfer: ROM is 0, RAM is 1. */
  datatype MemKind = Rom | Ram

  datatype Direction = Out | In

  /** The direction bit as the hardware and the ep-status array index use it:
      OUT is 0, IN is 1. */
  function DirBit(d: Direction): (b: bv1)
    ensures (b == 1) <==> d.In?
  {
    if d.In? then 1 else 0
  }

  /** The build-time ping-pong (double-buffering) policy: PINGPONG_DIS,
      PINGPONG_0_OUT, PINGPONG_1_15 and PINGPONG_ALL_EP. */
  datatype PingPongMode = PingPongDis | PingPong0Out | PingPong1To15 | PingPongAllEp

  /** Which buffer of an endpoint direction: the only one when that direction
      is single-buffered, otherwise the even or the odd one. */
  datatype PpSlot = Single | Even | Odd

  /** A buffer-descriptor table entry named by endpoint, direction and slot. */
  datatype BdRef = BdRef(ep: nat, dir: Direction, slot: PpSlot)

  /** The BD table entries the request-error macro stalls, in call order:
      both EP0 IN slots when EP0 is double-buffered (PINGPONG_ALL_EP), the
      single EP0 IN entry otherwise. */
  function RequestErrorStalls(mode: PingPongMode): (stalled: seq<BdRef>)
    ensures forall k :: 0 <= k < |stalled| ==> stalled[k].ep == 0 && stalled[k].dir == In
    ensures forall slot: PpSlot :: BdRef(0, In, slot) in stalled <==> Ep0Buffer(In, slot) in Ep0Buffers(mode)
    ensures forall j, k :: 0 <= j < k < |stalled| ==> stalled[j] != stalled[k]
  {
    if mode == PingPongAllEp then [BdRef(0, In, Even), BdRef(0, In, Odd)]
    else [BdRef(0, In, Single)]
  }

  // ---------------------------------------------------------------------------
  // EP0 buffer base addresses
  // ---------------------------------------------------------------------------

  /** An EP0 buffer: direction and ping-pong slot. */
  datatype Ep0Buffer = Ep0Buffer(dir: Direction, slot: PpSlot)

  /** The EP0 buffers a ping-pong policy defines, in address order. */
  function Ep0Buffers(mode: PingPongMode): (bufs: seq<Ep0Buffer>)
    ensures 2 <= |bufs| <= 4
    ensures bufs[0].dir == Out
  {
    match mode
    case PingPongDis => [Ep0Buffer(Out, Single), Ep0Buffer(In, Single)]
    case PingPong1To15 => [Ep0Buffer(Out, Single), Ep0Buffer(In, Single)]
    case PingPong0Out => [Ep0Buffer(Out, Even), Ep0Buffer(Out, Odd), Ep0Buffer(In, Single)]
    case PingPongAllEp =>
      [Ep0Buffer(Out, Even), Ep0Buffer(Out, Odd), Ep0Buffer(In, Even), Ep0Buffer(In, Odd)]
  }

  /** The EP0_*_BUFFER_BASE_ADDR macro for a buffer on PIC18 parts, None when
      the policy does not define that macro. */
  function Pic18Ep0Base(mode: PingPongMode, start: nat, size: nat, b: Ep0Buffer): (base: Option<nat>)
    ensures base.Some? <==> b in Ep0Buffers(mode)
    ensures base.Some? ==> start <= base.value
  {
    match mode
    case PingPongDis | PingPong1To15 =>
      if b == Ep0Buffer(Out, Single) then Some(start)
      else if b == Ep0Buffer(In, Single) then Some(start + size)
      else None
    case PingPong0Out =>
      if b == Ep0Buffer(Out, Even) then Some(start)
      else if b == Ep0Buffer(Out, Odd) then Some(start + size)
      else if b == Ep0Buffer(In, Single) then Some(start + size * 2)
      else None
    case PingPongAllEp =>
      if b == Ep0Buffer(Out, Even) then Some(start)
      else if b == Ep0Buffer(Out, Odd) then Some(start + size)
      else if b == Ep0Buffer(In, Even) then Some(start + size * 2)
      else if b == Ep0Buffer(In, Odd) then Some(start + size * 3)
      else None
  }

  /** On PIC18 the EP0 buffers are laid out back to back from the start of
      endpoint RAM, one EP0_SIZE step each, in the order OUT even, OUT odd,
      IN even, IN odd; a buffer has an address exactly when the policy lists it. */
  lemma Pic18Ep0Consecutive(mode: PingPongMode, start: nat, size: nat, b: Ep0Buffer)
    ensures Pic18Ep0Base(mode, start, size, b).Some? <==> b in Ep0Buffers(mode)
    ensures forall k :: 0 <= k < |Ep0Buffers(mode)| ==>
              Pic18Ep0Base(mode, start, size, Ep0Buffers(mode)[k]) == Some(start + k * size)
  {
    var bufs := Ep0Buffers(mode);
    forall k | 0 <= k < |bufs|
      ensures Pic18Ep0Base(mode, start, size, bufs[k]) == Some(start + k * size)
    {
      if k == 2 { assert k * size == size * 2; }
      if k == 3 { assert k * size == size * 3; }
    }
  }

  /** Hence on PIC18 no two EP0 buffers overlap: of two distinct buffers, one
      ends (base + EP0_SIZE) at or before the other begins. */
  lemma {:induction false} Pic18Ep0Disjoint(mode: PingPongMode, start: nat, size: nat, i: nat, j: nat)
    requires i < j < |Ep0Buffers(mode)|
    ensures Pic18Ep0Base(mode, start, size, Ep0Buffers(mode)[i]).Some?
    ensures Pic18Ep0Base(mode, start, size, Ep0Buffers(mode)[j]).Some?
    ensures Pic18Ep0Base(mode, start, size, Ep0Buffers(mode)[i]).value + size
            <= Pic18Ep0Base(mode, start, size, Ep0Buffers(mode)[j]).value
  {
    Pic18Ep0Consecutive(mode, start, size, Ep0Buffers(mode)[0]);
    MulMonotone(i + 1, j, size);
  }

  /** Multiplication bound used by Pic18Ep0Disjoint. */
  lemma MulMonotone(a: nat, b: nat, c: nat)
    requires a <= b
    ensures a * c <= b * c
  {
  }

  /** The hard-coded EP0 buffer base addresses on PIC16 parts (any EP0_SIZE
      other than 8, 16 and 32 selects the 64-byte table). */
  function Pic16Ep0Base(mode: PingPongMode, size: nat, b: Ep0Buffer): (base: Option<nat>)
    ensures base.Some? <==> b in Ep0Buffers(mode)
    ensures base.Some? ==> 0x20A0 <= base.value < 0x21F0
  {
    match mode
    case PingPongDis | PingPong1To15 =>
      var (o, i) := if size == 8 then (0x21E0, 0x21E8)
                    else if size == 16 then (0x21D0, 0x21E0)
                    else if size == 32 then (0x21A0, 0x21C0)
                    else (0x2150, 0x2190);
      if b == Ep0Buffer(Out, Single) then Some(o)
      else if b == Ep0Buffer(In, Single) then Some(i)
      else None
    case PingPong0Out =>
      var (oe, oo, i) := if size == 8 then (0x21D8, 0x21E0, 0x21E8)
                         else if size == 16 then (0x21C0, 0x21D0, 0x21E0)
                         else if size == 32 then (0x2170, 0x2190, 0x21B0)
                         else (0x20F0, 0x2140, 0x2190);
      if b == Ep0Buffer(Out, Even) then Some(oe)
      else if b == Ep0Buffer(Out, Odd) then Some(oo)
      else if b == Ep0Buffer(In, Single) then Some(i)
      else None
    case PingPongAllEp =>
      var (oe, oo, ie, io) := if size == 8 then (0x21D0, 0x21D8, 0x21E0, 0x21E8)
                              else if size == 16 then (0x21B0, 0x21C0, 0x21D0, 0x21E0)
                              else if size == 32 then (0x2150, 0x2170, 0x2190, 0x21B0)
                              else (0x20A0, 0x20F0, 0x2140, 0x2190);
      if b == Ep0Buffer(Out, Even) then Some(oe)
      else if b == Ep0Buffer(Out, Odd) then Some(oo)
      else if b == Ep0Buffer(In, Even) then Some(ie)
      else if b == Ep0Buffer(In, Odd) then Some(io)
      else None
  }

  predicate IsEp0Size(size: nat) {
    size == 8 || size == 16 || size == 32 || size == 64
  }

  /** For every policy and every legal EP0_SIZE the PIC16 table defines exactly
      the policy's buffers, at strictly increasing addresses each at least
      EP0_SIZE past the previous one, the last ending at or below 0x21F0. */
  lemma Pic16Ep0Layout(mode: PingPongMode, size: nat)
    requires IsEp0Size(size)
    ensures forall b :: Pic16Ep0Base(mode, size, b).Some? <==> b in Ep0Buffers(mode)
    ensures forall k :: 0 <= k < |Ep0Buffers(mode)| - 1 ==>
              Pic16Ep0Base(mode, size, Ep0Buffers(mode)[k]).value + size
              <= Pic16Ep0Base(mode, size, Ep0Buffers(mode)[k + 1]).value
    ensures Pic16Ep0Base(mode, size, Ep0Buffers(mode)[|Ep0Buffers(mode)| - 1]).value + size <= 0x21F0
  {
  }

  // ---------------------------------------------------------------------------
  // Endpoint status record (usb_ep_stat_t) and its packed byte
  // ---------------------------------------------------------------------------

  /** Three one-bit fields: Data_Toggle_Val (bit 0), Halt (bit 1), Last_PPB (bit 2). */
  datatype EpStat = EpStat(dataToggle: bv1, halt: bv1, lastPpb: bv1)

  function PackEpStat(s: EpStat): (b: bv8)
    ensures b & 0xF8 == 0
  {
    (s.dataToggle as bv8) | ((s.halt as bv8) << 1) | ((s.lastPpb as bv8) << 2)
  }

  function UnpackEpStat(b: bv8): (s: EpStat)
    ensures PackEpStat(s) == b & 0x07
  {
    EpStat((b & 1) as bv1, ((b >> 1) & 1) as bv1, ((b >> 2) & 1) as bv1)
  }

  /** The packed layout round-trips in both directions (the five padding bits
      are zero in every packed value). */
  lemma EpStatRoundTrip(s: EpStat, b: bv8)
    ensures UnpackEpStat(PackEpStat(s)) == s
    ensures b & 0xF8 == 0 ==> PackEpStat(UnpackEpStat(b)) == b
  {
  }

  /** `Data_Toggle_Val ^= 1`. */
  function FlipToggle(s: EpStat): (t: EpStat)
    ensures t.dataToggle != s.dataToggle
    ensures t.halt == s.halt && t.lastPpb == s.lastPpb
  {
    s.(dataToggle := s.dataToggle ^ 1)
  }

  /** Flipping the toggle field is flipping bit 0 of the packed byte: it
      changes that bit alone, leaves Halt and Last_PPB as they were, and a
      second flip undoes the first. */
  lemma FlipToggleIsBitFlip(s: EpStat)
    ensures PackEpStat(FlipToggle(s)) == PackEpStat(s) ^ 1
    ensures FlipToggle(s).halt == s.halt && FlipToggle(s).lastPpb == s.lastPpb
    ensures FlipToggle(s).dataToggle != s.dataToggle
    ensures FlipToggle(FlipToggle(s)) == s
  {
  }

  // ---------------------------------------------------------------------------
  // USTAT (usb_ustat_t)
  // ---------------------------------------------------------------------------

  /** PPBI is bit 1, DIR is bit 2, ENDP is bits 3..6; bits 0 and 7 are unused. */
  datatype Ustat = Ustat(ppbi: bv1, dir: bv1, endp: bv4)

  function DecodeUstat(b: bv8): (u: Ustat)
    ensures EncodeUstat(u) == b & 0x7E
  {
    Ustat(((b >> 1) & 1) as bv1, ((b >> 2) & 1) as bv1, ((b >> 3) & 0xF) as bv4)
  }

  function EncodeUstat(u: Ustat): (b: bv8)
    ensures b & 0x81 == 0
  {
    ((u.ppbi as bv8) << 1) | ((u.dir as bv8) << 2) | ((u.endp as bv8) << 3)
  }

  /** Decoding a USTAT byte whose unused bits are clear and re-encoding it gives
      the byte back; encoding a record and decoding it gives the record back. */
  lemma UstatRoundTrip(u: Ustat, b: bv8)
    ensures DecodeUstat(EncodeUstat(u)) == u
    ensures b & 0x81 == 0 ==> EncodeUstat(DecodeUstat(b)) == b
  {
  }

  /** The direction a USTAT value reports. */
  function UstatDirection(u: Ustat): (d: Direction)
    ensures DirBit(d) == u.dir
  {
    if u.dir == 1 then In else Out
  }

  // ---------------------------------------------------------------------------
  // EP_STAT_SIZE
  // ---------------------------------------------------------------------------

  /** EP_STAT_SIZE: two status records per endpoint. */
  function EpStatSize(numEndpoints: nat): (size: nat)
    ensures forall ep: nat, d: Direction :: ep < numEndpoints ==> EpStatIndex(ep, d) < size
  {
    numEndpoints * 2
  }

  /** Position of g_usb_ep_stat[ep][dir] in the row-major layout of the
      NUM_ENDPOINTS x 2 array. */
  function EpStatIndex(ep: nat, d: Direction): nat
  {
    ep * 2 + (if d.In? then 1 else 0)
  }

  /** EP_STAT_SIZE is exactly the number of records in g_usb_ep_stat: every
      (endpoint, direction) pair maps to a distinct position below it, and every
      position below it is reached by one such pair. */
  lemma EpStatSizeMatchesArray(numEndpoints: nat, ep: nat, d: Direction, ep': nat, d': Direction, k: nat)
    ensures ep < numEndpoints ==> EpStatIndex(ep, d) < EpStatSize(numEndpoints)
    ensures EpStatIndex(ep, d) == EpStatIndex(ep', d') ==> ep == ep' && d == d'
    ensures k < EpStatSize(numEndpoints) ==>
              k / 2 < numEndpoints && EpStatIndex(k / 2, if k % 2 == 1 then In else Out) == k
  {
  }

  datatype Option<+T> = None | Some(value: T)
}
