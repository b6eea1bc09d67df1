/** The GPIO driver of the STM32F429ZI hardware layer.

    Each port is a block of memory-mapped 32-bit registers; the driver reads
    and rewrites the two-bit fields of MODER, OSPEEDR and PUPDR at bit
    `2 * pin`, the one-bit field of OTYPER at bit `pin`, and the set/reset
    halves of BSRR. Only ports a to g have a register block in the driver's
    table, and the driver asserts that a pin number is at most 15; both are
    preconditions here. */
module HalGpio {
  import Bits

  datatype Port = A | B | C | D | E | F | G | H | I | J | K
  {
    /** The enumerator's value, used to index the register table. */
    function Index(): nat {
      match this
      case A => 0 case B => 1 case C => 2 case D => 3 case E => 4 case F => 5
      case G => 6 case H => 7 case I => 8 case J => 9 case K => 10
    }

    /** Whether the driver's register table has an entry for the port. */
    predicate IsMapped() {
      Index() < PORT_COUNT
    }
  }

  /** Number of entries in the driver's register table (ports a to g). */
  const PORT_COUNT: nat := 7
  /** The highest pin number of a port. */
  const MAX_PIN: bv32 := 15

  datatype Pin = Pin(port: Port, number: bv32)
  {
    predicate IsValid() {
      port.IsMapped() && number <= MAX_PIN
    }
  }

  datatype GpioMode = Input | Output | Alternate | Analog
  datatype GpioSpeed = Low | Medium | High | VeryHigh
  /** Code 3 of the pull field has no enumerator in the source; it is kept
      as `Reserved` so that every field value reads back as something. */
  datatype GpioPull = Floating | PullUp | PullDown | Reserved
  /** `sys1` is the only alternate function the driver reads back; the other
      enumerators are told apart by their position in the enumeration. */
  datatype AlternateFunction = Sys1 | Peripheral(position: nat)

  datatype GpioConfig = GpioConfig(
    pin: Pin,
    mode: GpioMode,
    isOpenDrain: bool,
    speed: GpioSpeed,
    pull: GpioPull,
    alternateFunction: AlternateFunction)

  function ModeCode(mode: GpioMode): bv32 {
    match mode
    case Input => 0 case Output => 1 case Alternate => 2 case Analog => 3
  }

  function ModeOf(code: bv32): GpioMode
  {
    if code == 0 then Input else if code == 1 then Output else if code == 2 then Alternate else Analog
  }

  function SpeedCode(speed: GpioSpeed): bv32 {
    match speed
    case Low => 0 case Medium => 1 case High => 2 case VeryHigh => 3
  }

  function SpeedOf(code: bv32): GpioSpeed
  {
    if code == 0 then Low else if code == 1 then Medium else if code == 2 then High else VeryHigh
  }

  function PullCode(pull: GpioPull): bv32 {
    match pull
    case Floating => 0 case PullUp => 1 case PullDown => 2 case Reserved => 3
  }

  function PullOf(code: bv32): GpioPull
  {
    if code == 0 then Floating else if code == 1 then PullUp else if code == 2 then PullDown else Reserved
  }

  /** Every two-bit field value decodes to a mode that encodes back to it ... */
  lemma ModeCodeRoundTrip(mode: GpioMode, code: bv32)
    requires code < 4
    ensures ModeCode(mode) < 4 && ModeOf(ModeCode(mode)) == mode
    ensures ModeCode(ModeOf(code)) == code
  {
  }

  /** ... a speed ... */
  lemma SpeedCodeRoundTrip(speed: GpioSpeed, code: bv32)
    requires code < 4
    ensures SpeedCode(speed) < 4 && SpeedOf(SpeedCode(speed)) == speed
    ensures SpeedCode(SpeedOf(code)) == code
  {
  }

  /** ... and a pull setting. */
  lemma PullCodeRoundTrip(pull: GpioPull, code: bv32)
    requires code < 4
    ensures PullCode(pull) < 4 && PullOf(PullCode(pull)) == pull
    ensures PullCode(PullOf(code)) == code
  {
  }

  /** The two-bit field of pin `number` in MODER, OSPEEDR or PUPDR. */
  function PairField(register: bv32, number: bv32): bv32
    requires number <= MAX_PIN
  {
    Bits.GetBits(register, 2 * number, 3)
  }

  /** The one-bit field of pin `number` in OTYPER, IDR or ODR. */
  function FlagField(register: bv32, number: bv32): bv32
    requires number <= MAX_PIN
  {
    Bits.GetBits(register, number, 1)
  }

  /** The register block of one port. */
  class GpioPort {
    var moder: bv32
    var otyper: bv32
    var ospeedr: bv32
    var pupdr: bv32
    var idr: bv32
    var odr: bv32
    var bsrr: bv32
    var lckr: bv32

    constructor ()
      ensures moder == 0 && otyper == 0 && ospeedr == 0 && pupdr == 0
      ensures idr == 0 && odr == 0 && bsrr == 0 && lckr == 0
    {
      moder, otyper, ospeedr, pupdr := 0, 0, 0, 0;
      idr, odr, bsrr, lckr := 0, 0, 0, 0;
    }
  }

  /** The driver: its state is the register blocks of ports a to g. */
  class Gpio {
    const ports: seq<GpioPort>

    ghost predicate Valid() {
      |ports| == PORT_COUNT && forall i, j :: 0 <= i < j < |ports| ==> ports[i] != ports[j]
    }

    constructor (ports: seq<GpioPort>)
      requires |ports| == PORT_COUNT && forall i, j :: 0 <= i < j < |ports| ==> ports[i] != ports[j]
      ensures Valid() && this.ports == ports
    {
      this.ports := ports;
    }

    /** The register block of a mapped port. */
    function Block(port: Port): GpioPort
      requires Valid() && port.IsMapped()
    {
      ports[port.Index()]
    }

    function GetMode(pin: Pin): GpioMode
      requires Valid() && pin.IsValid()
      reads Block(pin.port)
    {
      ModeOf(PairField(Block(pin.port).moder, pin.number))
    }

    function IsOpenDrain(pin: Pin): bool
      requires Valid() && pin.IsValid()
      reads Block(pin.port)
    {
      Bits.GetBit(Block(pin.port).otyper, pin.number)
    }

    function GetSpeed(pin: Pin): GpioSpeed
      requires Valid() && pin.IsValid()
      reads Block(pin.port)
    {
      SpeedOf(PairField(Block(pin.port).ospeedr, pin.number))
    }

    function GetPull(pin: Pin): GpioPull
      requires Valid() && pin.IsValid()
      reads Block(pin.port)
    {
      PullOf(PairField(Block(pin.port).pupdr, pin.number))
    }

    /** Alternate functions are not read from the hardware yet: always sys1. */
    function GetAlternateFunction(pin: Pin): AlternateFunction
    {
      Sys1
    }

    /** The configuration of `pin` as the registers hold it. */
    function Configuration(pin: Pin): GpioConfig
      requires Valid() && pin.IsValid()
      reads Block(pin.port)
    {
      GpioConfig(pin, GetMode(pin), IsOpenDrain(pin), GetSpeed(pin), GetPull(pin), GetAlternateFunction(pin))
    }

    /** Fills in every field of `config` but its pin from the registers. */
    method GetConfiguration(config: GpioConfig) returns (result: GpioConfig)
      requires Valid() && config.pin.IsValid()
      ensures result.pin == config.pin
      ensures result == Configuration(config.pin)
      ensures result.alternateFunction == Sys1
    {
      var pin := config.pin;
      result := config.(mode := GetMode(pin), isOpenDrain := IsOpenDrain(pin), speed := GetSpeed(pin),
                        pull := GetPull(pin), alternateFunction := GetAlternateFunction(pin));
    }

    /** Writes the mode field of `pin`; the other pins' modes stay. */
    method SetMode(pin: Pin, mode: GpioMode)
      requires Valid() && pin.IsValid()
      modifies Block(pin.port)`moder
      ensures GetMode(pin) == mode
      ensures forall k :: k <= MAX_PIN && k != pin.number ==>
                PairField(Block(pin.port).moder, k) == old(PairField(Block(pin.port).moder, k))
    {
      var block := Block(pin.port);
      var n := pin.number;
      ghost var before := block.moder;
      block.moder := Bits.SetBits(block.moder, 2 * n, 3, ModeCode(mode));
      Bits.RoundTrip(before, 2 * n, 3, ModeCode(mode));
      ModeCodeRoundTrip(mode, 0);
      forall k | k <= MAX_PIN && k != n
        ensures PairField(block.moder, k) == PairField(before, k)
      {
        Bits.PairFieldFrame(before, n, k, ModeCode(mode));
      }
    }

    /** Writes the output-type bit of `pin`; the other pins' bits stay. */
    method SetOpenDrain(pin: Pin, isOpenDrain: bool)
      requires Valid() && pin.IsValid()
      modifies Block(pin.port)`otyper
      ensures Bits.GetBit(Block(pin.port).otyper, pin.number) == isOpenDrain
      ensures forall k :: k <= MAX_PIN && k != pin.number ==>
                Bits.GetBit(Block(pin.port).otyper, k) == old(Bits.GetBit(Block(pin.port).otyper, k))
    {
      var block := Block(pin.port);
      var n := pin.number;
      ghost var before := block.otyper;
      if isOpenDrain {
        block.otyper := Bits.SetBit(block.otyper, n, true);
        Bits.SetBitGet(before, n, true);
        Bits.SetBitFrameAll(before, n, true);
      } else {
        block.otyper := Bits.SetBit(block.otyper, n, false);
        Bits.SetBitGet(before, n, false);
        Bits.SetBitFrameAll(before, n, false);
      }
    }

    /** Writes the speed field of `pin`; the other pins' speeds stay. */
    method SetSpeed(pin: Pin, speed: GpioSpeed)
      requires Valid() && pin.IsValid()
      modifies Block(pin.port)`ospeedr
      ensures GetSpeed(pin) == speed
      ensures forall k :: k <= MAX_PIN && k != pin.number ==>
                PairField(Block(pin.port).ospeedr, k) == old(PairField(Block(pin.port).ospeedr, k))
    {
      var block := Block(pin.port);
      var n := pin.number;
      ghost var before := block.ospeedr;
      block.ospeedr := Bits.SetBits(block.ospeedr, 2 * n, 3, SpeedCode(speed));
      Bits.RoundTrip(before, 2 * n, 3, SpeedCode(speed));
      SpeedCodeRoundTrip(speed, 0);
      forall k | k <= MAX_PIN && k != n
        ensures PairField(block.ospeedr, k) == PairField(before, k)
      {
        Bits.PairFieldFrame(before, n, k, SpeedCode(speed));
      }
    }

    /** Writes the pull field of `pin`; the other pins' pulls stay. */
    method SetPull(pin: Pin, pull: GpioPull)
      requires Valid() && pin.IsValid()
      modifies Block(pin.port)`pupdr
      ensures GetPull(pin) == pull
      ensures forall k :: k <= MAX_PIN && k != pin.number ==>
                PairField(Block(pin.port).pupdr, k) == old(PairField(Block(pin.port).pupdr, k))
    {
      var block := Block(pin.port);
      var n := pin.number;
      ghost var before := block.pupdr;
      block.pupdr := Bits.SetBits(block.pupdr, 2 * n, 3, PullCode(pull));
      Bits.RoundTrip(before, 2 * n, 3, PullCode(pull));
      PullCodeRoundTrip(pull, 0);
      forall k | k <= MAX_PIN && k != n
        ensures PairField(block.pupdr, k) == PairField(before, k)
      {
        Bits.PairFieldFrame(before, n, k, PullCode(pull));
      }
    }

    /** Alternate functions are not written to the hardware yet. */
    method SetAlternateFunction(pin: Pin, alternateFunction: AlternateFunction)
      ensures GetAlternateFunction(pin) == Sys1
    {
    }

    /** Writes mode, output type, speed and pull of the pin; reading the
        configuration back gives what was written, with the alternate
        function read as sys1. */
    method SetConfiguration(config: GpioConfig)
      requires Valid() && config.pin.IsValid()
      modifies Block(config.pin.port)`moder, Block(config.pin.port)`otyper,
               Block(config.pin.port)`ospeedr, Block(config.pin.port)`pupdr
      ensures Configuration(config.pin) == config.(alternateFunction := Sys1)
      ensures forall k :: k <= MAX_PIN && k != config.pin.number ==>
                && PairField(Block(config.pin.port).moder, k) == old(PairField(Block(config.pin.port).moder, k))
                && Bits.GetBit(Block(config.pin.port).otyper, k) == old(Bits.GetBit(Block(config.pin.port).otyper, k))
                && PairField(Block(config.pin.port).ospeedr, k) == old(PairField(Block(config.pin.port).ospeedr, k))
                && PairField(Block(config.pin.port).pupdr, k) == old(PairField(Block(config.pin.port).pupdr, k))
    {
      var pin := config.pin;
      SetMode(pin, config.mode);
      SetOpenDrain(pin, config.isOpenDrain);
      SetSpeed(pin, config.speed);
      SetPull(pin, config.pull);
      SetAlternateFunction(pin, config.alternateFunction);
    }

    /** Requests the output level through BSRR: bit `pin` sets the output,
        bit `pin + 16` resets it. No other BSRR bit changes. */
    method SetOutputState(pin: Pin, state: bool)
      requires Valid() && pin.IsValid()
      modifies Block(pin.port)`bsrr
      ensures Bits.GetBit(Block(pin.port).bsrr, if state then pin.number else pin.number + 16)
      ensures forall k :: k < 32 && k != (if state then pin.number else pin.number + 16) ==>
                Bits.GetBit(Block(pin.port).bsrr, k) == old(Bits.GetBit(Block(pin.port).bsrr, k))
    {
      var block := Block(pin.port);
      var position := if state then pin.number else pin.number + 16;
      ghost var before := block.bsrr;
      block.bsrr := Bits.SetBit(block.bsrr, position, true);
      assert Bits.GetBit(block.bsrr, position) by {
        Bits.SetBitGet(before, position, true);
      }
      assert forall k :: k < 32 && k != position ==> Bits.GetBit(block.bsrr, k) == Bits.GetBit(before, k) by {
        Bits.SetBitFrameAll(before, position, true);
      }
    }

    /** The input level of `pin`: its IDR bit. */
    method GetInputState(pin: Pin) returns (state: bool)
      requires Valid() && pin.IsValid()
      ensures state <==> Bits.GetBit(Block(pin.port).idr, pin.number)
    {
      state := FlagField(Block(pin.port).idr, pin.number) != 0;
      Bits.GetBitIsBit(Block(pin.port).idr, pin.number);
    }

    /** The output level of `pin`: its ODR bit. */
    method GetOutputState(pin: Pin) returns (state: bool)
      requires Valid() && pin.IsValid()
      ensures state <==> Bits.GetBit(Block(pin.port).odr, pin.number)
    {
      state := FlagField(Block(pin.port).odr, pin.number) != 0;
      Bits.GetBitIsBit(Block(pin.port).odr, pin.number);
    }

    /** The lock sequence is compiled out, so locking changes nothing. */
    method LockPort(port: Port)
      requires Valid() && port.IsMapped()
      ensures Block(port).lckr == old(Block(port).lckr)
    {
      if !Bits.GetBit(Block(port).lckr, 16) {
      }
    }
  }

  /** The register values of the driver's first test: PC5 configured as an
      open-drain output with high speed and pull-up, on cleared registers. */
  lemma ConfigurationExample()
    ensures Bits.SetBits(0, 2 * 5, 3, ModeCode(Output)) == 0x400
    ensures Bits.SetBit(0, 5, true) == 0x20
    ensures Bits.SetBits(0, 2 * 5, 3, SpeedCode(High)) == 0x800
    ensures Bits.SetBits(0, 2 * 5, 3, PullCode(PullUp)) == 0x400
  {
  }
}
