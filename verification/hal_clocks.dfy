/** The clock driver of the STM32F429ZI hardware layer.

    The driver switches oscillators on and off through the RCC registers
    CR, CSR and BDCR, selects the system clock source through CFGR, and
    keeps the system clock frequency (16 MHz, the internal oscillator the
    chip boots from). After each request it waits, through the polling
    helpers, for the hardware to acknowledge it, and then ignores the
    outcome of the wait. The register values the hardware returns while the
    driver polls are a parameter of each operation; the registers
    themselves change only by the driver's own writes. */
module HalClocks {
  import opened Wrappers
  import Bits
  import HalInternal

  /** The frequency of the boot clock, in Hz. */
  const DEFAULT_SYSTEM_CLOCK: bv32 := 16000000

  // Bit positions and fields of the RCC registers (CMSIS device header).
  const CR_HSION: bv32 := 0
  const CR_HSIRDY: bv32 := 1
  const CR_HSEON: bv32 := 16
  const CR_HSERDY: bv32 := 17
  const CR_PLLRDY: bv32 := 25
  const CSR_LSION: bv32 := 0
  const CSR_LSIRDY: bv32 := 1
  const BDCR_LSEON: bv32 := 0
  const BDCR_LSERDY: bv32 := 1
  /** The system clock switch field SW, bits 0 and 1 of CFGR. */
  const CFGR_SW_MASK: bv32 := 0x3
  /** The system clock switch status field SWS, bits 2 and 3 of CFGR. */
  const CFGR_SWS_MASK: bv32 := 0xC

  datatype OscillatorType =
    | HighSpeedInternal
    | HighSpeedExternal
    | LowSpeedInternal
    | LowSpeedExternal
    | Pll
    | Unknown

  datatype RegisterId = Cr | Csr | Bdcr | Cfgr

  /** A bit of one of the RCC registers. */
  datatype BitRef = BitRef(register: RegisterId, position: bv32)

  /** The values of the RCC registers the driver uses. */
  datatype RccRegisters = RccRegisters(cr: bv32, csr: bv32, bdcr: bv32, cfgr: bv32)
  {
    function Read(id: RegisterId): bv32 {
      match id
      case Cr => cr
      case Csr => csr
      case Bdcr => bdcr
      case Cfgr => cfgr
    }

    function Write(id: RegisterId, value: bv32): RccRegisters {
      match id
      case Cr => this.(cr := value)
      case Csr => this.(csr := value)
      case Bdcr => this.(bdcr := value)
      case Cfgr => this.(cfgr := value)
    }
  }

  /** The bit that reports the oscillator as running; the unknown type has none. */
  function ReadyBit(oscillator: OscillatorType): Option<BitRef> {
    match oscillator
    case HighSpeedInternal => Some(BitRef(Cr, CR_HSIRDY))
    case HighSpeedExternal => Some(BitRef(Cr, CR_HSERDY))
    case LowSpeedInternal => Some(BitRef(Csr, CSR_LSIRDY))
    case LowSpeedExternal => Some(BitRef(Bdcr, BDCR_LSERDY))
    case Pll => Some(BitRef(Cr, CR_PLLRDY))
    case Unknown => None
  }

  /** The bit that switches the oscillator on; the driver switches neither
      the PLL nor the unknown type. */
  function OnBit(oscillator: OscillatorType): Option<BitRef> {
    match oscillator
    case HighSpeedInternal => Some(BitRef(Cr, CR_HSION))
    case HighSpeedExternal => Some(BitRef(Cr, CR_HSEON))
    case LowSpeedInternal => Some(BitRef(Csr, CSR_LSION))
    case LowSpeedExternal => Some(BitRef(Bdcr, BDCR_LSEON))
    case Pll => None
    case Unknown => None
  }

  /** The SW value that selects the oscillator and the SWS value with which
      the hardware confirms it; only HSI, HSE and the PLL can drive the
      system clock. */
  datatype SwitchCodes = SwitchCodes(sw: bv32, sws: bv32)

  function SwitchCodesOf(oscillator: OscillatorType): Option<SwitchCodes> {
    match oscillator
    case HighSpeedInternal => Some(SwitchCodes(0x0, 0x0))
    case HighSpeedExternal => Some(SwitchCodes(0x1, 0x4))
    case Pll => Some(SwitchCodes(0x2, 0x8))
    case _ => None
  }

  /** Whether the registers report the oscillator as running. */
  function IsRunningIn(registers: RccRegisters, oscillator: OscillatorType): bool {
    match ReadyBit(oscillator)
    case None => false
    case Some(b) => Bits.GetBit(registers.Read(b.register), b.position)
  }

  /** The system clock source the SWS field of `cfgr` reports. */
  function SysClockSourceOf(cfgr: bv32): OscillatorType {
    var sws := cfgr & CFGR_SWS_MASK;
    if sws == 0x0 then HighSpeedInternal
    else if sws == 0x4 then HighSpeedExternal
    else if sws == 0x8 then Pll
    else Unknown
  }

  /** The registers after `Enable`: an oscillator that is not yet running
      gets its on-bit set; anything else is left alone. */
  function Enabled(registers: RccRegisters, oscillator: OscillatorType): RccRegisters {
    if IsRunningIn(registers, oscillator) then registers
    else match OnBit(oscillator)
      case None => registers
      case Some(b) => registers.Write(b.register, Bits.SetBit(registers.Read(b.register), b.position, true))
  }

  /** The registers after `Disable`: a running oscillator that does not drive
      the system clock gets its on-bit cleared; anything else is left alone. */
  function Disabled(registers: RccRegisters, oscillator: OscillatorType): RccRegisters {
    if !IsRunningIn(registers, oscillator) || SysClockSourceOf(registers.cfgr) == oscillator then registers
    else match OnBit(oscillator)
      case None => registers
      case Some(b) => registers.Write(b.register, Bits.SetBit(registers.Read(b.register), b.position, false))
  }

  /** The registers after `SetSysClockSource`: a running oscillator that can
      drive the system clock has its code written to SW. */
  function SourceSelected(registers: RccRegisters, oscillator: OscillatorType): RccRegisters {
    if !IsRunningIn(registers, oscillator) then registers
    else match SwitchCodesOf(oscillator)
      case None => registers
      case Some(codes) => registers.(cfgr := Bits.SetMasked(registers.cfgr, CFGR_SW_MASK, codes.sw))
  }

  /** The RCC register block. */
  class Rcc {
    var cr: bv32
    var csr: bv32
    var bdcr: bv32
    var cfgr: bv32

    constructor (initial: RccRegisters)
      ensures Value() == initial
    {
      cr, csr, bdcr, cfgr := initial.cr, initial.csr, initial.bdcr, initial.cfgr;
    }

    function Value(): RccRegisters
      reads this
    {
      RccRegisters(cr, csr, bdcr, cfgr)
    }

    /** The in-place masked `SetBits` on CFGR, the only register the driver
        writes a field of. */
    method SetCfgrBits(mask: bv32, pattern: bv32)
      modifies this
      ensures Value() == old(Value()).(cfgr := Bits.SetMasked(old(cfgr), mask, pattern))
    {
      cfgr := Bits.SetMasked(cfgr, mask, pattern);
    }

    /** The in-place `SetBit` on register `id`. */
    method SetBit(id: RegisterId, position: bv32, state: bool)
      requires position < 32
      modifies this
      ensures Value() == old(Value()).Write(id, Bits.SetBit(old(Value()).Read(id), position, state))
    {
      match id {
        case Cr => cr := Bits.SetBit(cr, position, state);
        case Csr => csr := Bits.SetBit(csr, position, state);
        case Bdcr => bdcr := Bits.SetBit(bdcr, position, state);
        case Cfgr => cfgr := Bits.SetBit(cfgr, position, state);
      }
    }
  }

  /** The driver: the RCC block and the system clock frequency. */
  class Clocks {
    const rcc: Rcc
    var sysClockFrequency: bv32

    constructor (rcc: Rcc)
      ensures this.rcc == rcc && sysClockFrequency == DEFAULT_SYSTEM_CLOCK
    {
      this.rcc := rcc;
      sysClockFrequency := DEFAULT_SYSTEM_CLOCK;
    }

    function IsRunning(oscillator: OscillatorType): bool
      reads rcc
    {
      IsRunningIn(rcc.Value(), oscillator)
    }

    function GetSysClockSource(): OscillatorType
      reads rcc
    {
      SysClockSourceOf(rcc.cfgr)
    }

    function GetSysClockFrequency(): bv32
      reads this
    {
      sysClockFrequency
    }

    /** Switches the oscillator on unless it already runs, then waits for its
        ready bit in `hardware`, the values successive reads return. */
    method Enable(oscillator: OscillatorType, hardware: nat -> bv32)
      modifies rcc
      ensures rcc.Value() == Enabled(old(rcc.Value()), oscillator)
    {
      if !IsRunning(oscillator) {
        var isTimeout: bool;
        match oscillator {
          case HighSpeedInternal =>
            rcc.SetBit(Cr, CR_HSION, true);
            isTimeout := HalInternal.WaitForBitToSet(sysClockFrequency, hardware, CR_HSIRDY);
          case HighSpeedExternal =>
            rcc.SetBit(Cr, CR_HSEON, true);
            isTimeout := HalInternal.WaitForBitToSet(sysClockFrequency, hardware, CR_HSERDY);
          case LowSpeedInternal =>
            rcc.SetBit(Csr, CSR_LSION, true);
            isTimeout := HalInternal.WaitForBitToSet(sysClockFrequency, hardware, CSR_LSIRDY);
          case LowSpeedExternal =>
            rcc.SetBit(Bdcr, BDCR_LSEON, true);
            isTimeout := HalInternal.WaitForBitToSet(sysClockFrequency, hardware, BDCR_LSERDY);
          case _ =>
        }
      }
    }

    /** Switches the oscillator off if it runs and does not drive the system
        clock, then waits for its ready bit to clear in `hardware`. */
    method Disable(oscillator: OscillatorType, hardware: nat -> bv32)
      modifies rcc
      ensures rcc.Value() == Disabled(old(rcc.Value()), oscillator)
    {
      if IsRunning(oscillator) && GetSysClockSource() != oscillator {
        var isTimeout: bool;
        match oscillator {
          case HighSpeedInternal =>
            rcc.SetBit(Cr, CR_HSION, false);
            isTimeout := HalInternal.WaitForBitToClear(sysClockFrequency, hardware, CR_HSIRDY);
          case HighSpeedExternal =>
            rcc.SetBit(Cr, CR_HSEON, false);
            isTimeout := HalInternal.WaitForBitToClear(sysClockFrequency, hardware, CR_HSERDY);
          case LowSpeedInternal =>
            rcc.SetBit(Csr, CSR_LSION, false);
            isTimeout := HalInternal.WaitForBitToClear(sysClockFrequency, hardware, CSR_LSIRDY);
          case LowSpeedExternal =>
            rcc.SetBit(Bdcr, BDCR_LSEON, false);
            isTimeout := HalInternal.WaitForBitToClear(sysClockFrequency, hardware, BDCR_LSERDY);
          case _ =>
        }
      }
    }

    /** Selects a running oscillator as the system clock source, then waits
        for SWS in `hardware` to confirm it. */
    method SetSysClockSource(oscillator: OscillatorType, hardware: nat -> bv32)
      modifies rcc
      ensures rcc.Value() == SourceSelected(old(rcc.Value()), oscillator)
    {
      if IsRunning(oscillator) {
        var isTimeout: bool;
        match oscillator {
          case HighSpeedInternal =>
            rcc.SetCfgrBits(CFGR_SW_MASK, 0x0);
            isTimeout := HalInternal.WaitForBitPatternToSet(sysClockFrequency, hardware, CFGR_SWS_MASK, 0x0);
          case HighSpeedExternal =>
            rcc.SetCfgrBits(CFGR_SW_MASK, 0x1);
            isTimeout := HalInternal.WaitForBitPatternToSet(sysClockFrequency, hardware, CFGR_SWS_MASK, 0x4);
          case Pll =>
            rcc.SetCfgrBits(CFGR_SW_MASK, 0x2);
            isTimeout := HalInternal.WaitForBitPatternToSet(sysClockFrequency, hardware, CFGR_SWS_MASK, 0x8);
          case _ =>
        }
      }
    }
  }

  /** Enabling a stopped oscillator sets its on-bit and touches no other
      register ... */
  lemma EnableSetsOnBit(registers: RccRegisters, oscillator: OscillatorType, other: RegisterId)
    requires !IsRunningIn(registers, oscillator) && OnBit(oscillator).Some?
    ensures var b := OnBit(oscillator).value;
      && Bits.GetBit(Enabled(registers, oscillator).Read(b.register), b.position)
      && (other != b.register ==> Enabled(registers, oscillator).Read(other) == registers.Read(other))
  {
    var b := OnBit(oscillator).value;
    Bits.SetBitGet(registers.Read(b.register), b.position, true);
  }

  /** ... but only requests the start: the ready bit, which the hardware
      sets, is not written, so the oscillator does not yet read as running. */
  lemma EnableLeavesReadyBit(registers: RccRegisters, oscillator: OscillatorType)
    ensures IsRunningIn(Enabled(registers, oscillator), oscillator) == IsRunningIn(registers, oscillator)
  {
    if !IsRunningIn(registers, oscillator) && OnBit(oscillator).Some? {
      var on, ready := OnBit(oscillator).value, ReadyBit(oscillator).value;
      assert on.register == ready.register && on.position != ready.position;
      Bits.SetBitFrame(registers.Read(on.register), on.position, ready.position, true);
    }
  }

  /** Enabling a running oscillator, or one the driver does not switch,
      changes nothing. */
  lemma EnableRunningIsNoOp(registers: RccRegisters, oscillator: OscillatorType)
    requires IsRunningIn(registers, oscillator) || OnBit(oscillator).None?
    ensures Enabled(registers, oscillator) == registers
  {
  }

  /** Disabling a running oscillator that does not drive the system clock
      clears its on-bit and touches no other register. */
  lemma DisableClearsOnBit(registers: RccRegisters, oscillator: OscillatorType, other: RegisterId)
    requires IsRunningIn(registers, oscillator) && SysClockSourceOf(registers.cfgr) != oscillator
    requires OnBit(oscillator).Some?
    ensures var b := OnBit(oscillator).value;
      && !Bits.GetBit(Disabled(registers, oscillator).Read(b.register), b.position)
      && (other != b.register ==> Disabled(registers, oscillator).Read(other) == registers.Read(other))
  {
    var b := OnBit(oscillator).value;
    Bits.SetBitGet(registers.Read(b.register), b.position, false);
  }

  /** The oscillator that drives the system clock is never switched off. */
  lemma DisableSparesSystemClock(registers: RccRegisters)
    ensures Disabled(registers, SysClockSourceOf(registers.cfgr)) == registers
  {
  }

  /** Selecting a source writes its code to SW and leaves every other CFGR
      bit, including the status field SWS, as it was. */
  lemma SelectWritesSwitchField(registers: RccRegisters, oscillator: OscillatorType)
    requires IsRunningIn(registers, oscillator) && SwitchCodesOf(oscillator).Some?
    ensures (SourceSelected(registers, oscillator).cfgr & CFGR_SW_MASK) == SwitchCodesOf(oscillator).value.sw
    ensures (SourceSelected(registers, oscillator).cfgr & !CFGR_SW_MASK) == (registers.cfgr & !CFGR_SW_MASK)
  {
    Bits.SetMaskedSpec(registers.cfgr, CFGR_SW_MASK, SwitchCodesOf(oscillator).value.sw);
  }

  /** The status the driver waits for after selecting a source is the one
      from which `GetSysClockSource` reads that source back ... */
  lemma AwaitedStatusReadsBack(cfgr: bv32, oscillator: OscillatorType)
    requires SwitchCodesOf(oscillator).Some?
    requires Bits.CompareMasked(cfgr, CFGR_SWS_MASK, SwitchCodesOf(oscillator).value.sws)
    ensures SysClockSourceOf(cfgr) == oscillator
  {
  }

  /** ... and it is the written SW code moved to the SWS position. */
  lemma StatusMirrorsSwitch(oscillator: OscillatorType)
    requires SwitchCodesOf(oscillator).Some?
    ensures SwitchCodesOf(oscillator).value.sws == SwitchCodesOf(oscillator).value.sw << 2
  {
  }

  /** Only HSI, HSE and the PLL are ever reported as the system clock source. */
  lemma ReportedSourceIsSwitchable(cfgr: bv32)
    ensures SysClockSourceOf(cfgr) != Unknown ==> SwitchCodesOf(SysClockSourceOf(cfgr)).Some?
    ensures SysClockSourceOf(cfgr) != LowSpeedInternal && SysClockSourceOf(cfgr) != LowSpeedExternal
  {
  }
}
