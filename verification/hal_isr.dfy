/** The interrupt handler table of the STM32F429ZI hardware layer.

    The table has one entry per interrupt vector number below
    `INTERRUPT_MAX`, the value of the last enumerator of the interrupt
    enumeration. It is a static member, shared by every instance of the
    driver, and is zero-filled at program start; a handler is a function
    pointer, here a number with 0 for the null pointer. An interrupt is
    given by its enumerator's value (2 for the non-maskable interrupt up to
    105 for DMA2D, and `INTERRUPT_MAX` itself). */
module HalIsr {
  /** The number of entries in the handler table. */
  const INTERRUPT_MAX: nat := 106
  /** The value range of the `uint8_t` loop counter. */
  const COUNTER_MODULUS: nat := 0x100

  /** A handler address; 0 is the null pointer. */
  type Handler = nat

  /** The table after the constructor's loop when its counter starts at
      `start`: entries from `start` on are cleared, the ones before it kept. */
  function ClearedFrom(table: seq<Handler>, start: nat): (r: seq<Handler>)
    ensures |r| == |table|
    ensures forall i :: 0 <= i < |table| && start <= i ==> r[i] == 0
    ensures forall i :: 0 <= i < |table| && i < start ==> r[i] == table[i]
  {
    seq(|table|, i requires 0 <= i < |table| => if start <= i then 0 else table[i])
  }

  /** The table after `SetHandler`: the entry of an interrupt below the
      maximum takes the handler; any other interrupt leaves the table alone. */
  function WithHandler(table: seq<Handler>, interrupt: nat, handler: Handler): (r: seq<Handler>)
    requires |table| == INTERRUPT_MAX
    ensures |r| == |table|
    ensures interrupt < INTERRUPT_MAX ==> r[interrupt] == handler
    ensures forall i :: 0 <= i < |table| && i != interrupt ==> r[i] == table[i]
  {
    if interrupt < INTERRUPT_MAX then table[interrupt := handler] else table
  }

  /** The loop of the constructor as the source writes it: its `uint8_t`
      counter is never initialised, so it starts at whatever value `start`
      the stack holds, and only the entries from there to the end are
      cleared. */
  method ClearHandlersAsWritten(handlers: array<Handler>, start: nat)
    requires handlers.Length == INTERRUPT_MAX && start < COUNTER_MODULUS
    modifies handlers
    ensures handlers[..] == ClearedFrom(old(handlers[..]), start)
  {
    var i := start;
    while i < INTERRUPT_MAX
      invariant start <= i && (start <= INTERRUPT_MAX ==> i <= INTERRUPT_MAX)
      invariant forall k :: 0 <= k < INTERRUPT_MAX && start <= k < i ==> handlers[k] == 0
      invariant forall k :: 0 <= k < INTERRUPT_MAX && (k < start || i <= k) ==> handlers[k] == old(handlers[k])
      decreases INTERRUPT_MAX - i
    {
      handlers[i] := 0;
      i := i + 1;
    }
  }

  /** A counter that happens to start at the table size clears nothing: the
      SysTick handler a previous instance installed stays in the table. */
  lemma AsWrittenKeepsStaleHandler(table: seq<Handler>)
    requires |table| == INTERRUPT_MAX && table[15] != 0
    ensures ClearedFrom(table, INTERRUPT_MAX)[15] == table[15] != 0
    ensures ClearedFrom(table, INTERRUPT_MAX) != ClearedFrom(table, 0)
  {
    assert ClearedFrom(table, 0)[15] == 0;
  }

  /** The driver. All instances share the handler table. */
  class Isr {
    const handlers: array<Handler>

    ghost predicate Valid() {
      handlers.Length == INTERRUPT_MAX
    }

    /** Clears every entry of the shared table (the loop counter starting at
        0, as evidently intended). */
    constructor (handlers: array<Handler>)
      requires handlers.Length == INTERRUPT_MAX
      modifies handlers
      ensures Valid() && this.handlers == handlers
      ensures forall i :: 0 <= i < INTERRUPT_MAX ==> handlers[i] == 0
    {
      this.handlers := handlers;
      new;
      var i := 0;
      while i < INTERRUPT_MAX
        invariant 0 <= i <= INTERRUPT_MAX
        invariant forall k :: 0 <= k < i ==> handlers[k] == 0
      {
        handlers[i] := 0;
        i := i + 1;
      }
    }

    /** Installs `handler` for `interrupt` if the interrupt is below the
        maximum; no other entry changes. */
    method SetHandler(interrupt: nat, handler: Handler)
      requires Valid()
      modifies handlers
      ensures handlers[..] == WithHandler(old(handlers[..]), interrupt, handler)
    {
      if interrupt < INTERRUPT_MAX {
        handlers[interrupt] := handler;
      }
    }

    /** Enabling an interrupt is not implemented: nothing changes. */
    method Enable(interrupt: nat)
      requires Valid()
      ensures handlers[..] == old(handlers[..])
    {
    }

    /** Disabling an interrupt is not implemented: nothing changes. */
    method Disable(interrupt: nat)
      requires Valid()
      ensures handlers[..] == old(handlers[..])
    {
    }
  }

  /** Installing a handler twice for the same interrupt keeps the second. */
  lemma SetHandlerLastWins(table: seq<Handler>, interrupt: nat, first: Handler, second: Handler)
    requires |table| == INTERRUPT_MAX
    ensures WithHandler(WithHandler(table, interrupt, first), interrupt, second) == WithHandler(table, interrupt, second)
  {
  }

  /** Handlers for different interrupts do not disturb each other. */
  lemma SetHandlersCommute(table: seq<Handler>, a: nat, b: nat, ha: Handler, hb: Handler)
    requires |table| == INTERRUPT_MAX && a != b
    ensures WithHandler(WithHandler(table, a, ha), b, hb) == WithHandler(WithHandler(table, b, hb), a, ha)
  {
  }
}
