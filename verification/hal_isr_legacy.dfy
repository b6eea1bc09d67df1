/** The interrupt handler table of the board-independent hardware layer.

    Unlike the STM32F429ZI driver, each instance owns its table, which has
    one entry per vector: SysTick (0) and the global interrupt (1). The
    storage of a new instance is uninitialised; its contents are given to
    the constructor as `garbage`. */
module HalIsrLegacy {
  import HalIsr

  /** The number of vectors, the value of the enumeration's last member. */
  const VECTORS_MAX: nat := 2
  const SYS_TICK: nat := 0
  const GLOBAL: nat := 1

  /** The table after `SetHandler`: a vector below the maximum takes the
      handler, and nothing else changes. */
  function WithHandler(table: seq<HalIsr.Handler>, vector: nat, handler: HalIsr.Handler): (r: seq<HalIsr.Handler>)
    requires |table| == VECTORS_MAX
    ensures |r| == VECTORS_MAX
    ensures vector < VECTORS_MAX ==> r[vector] == handler
    ensures forall i :: 0 <= i < VECTORS_MAX && i != vector ==> r[i] == table[i]
  {
    if vector < VECTORS_MAX then table[vector := handler] else table
  }

  /** The constructor's loop as the source writes it, from the value `start`
      its uninitialised `uint8_t` counter happens to hold. */
  method ClearHandlersAsWritten(handlers: array<HalIsr.Handler>, start: nat)
    requires handlers.Length == VECTORS_MAX && start < HalIsr.COUNTER_MODULUS
    modifies handlers
    ensures handlers[..] == HalIsr.ClearedFrom(old(handlers[..]), start)
  {
    var i := start;
    while i < VECTORS_MAX
      invariant start <= i && (start <= VECTORS_MAX ==> i <= VECTORS_MAX)
      invariant forall k :: 0 <= k < VECTORS_MAX && start <= k < i ==> handlers[k] == 0
      invariant forall k :: 0 <= k < VECTORS_MAX && (k < start || i <= k) ==> handlers[k] == old(handlers[k])
      decreases VECTORS_MAX - i
    {
      handlers[i] := 0;
      i := i + 1;
    }
  }

  /** A counter holding 1 skips the SysTick entry: whatever the fresh storage
      held there is left as a handler address. */
  lemma AsWrittenLeavesGarbage(garbage: seq<HalIsr.Handler>)
    requires |garbage| == VECTORS_MAX && garbage[SYS_TICK] != 0
    ensures HalIsr.ClearedFrom(garbage, 1)[SYS_TICK] == garbage[SYS_TICK] != 0
    ensures HalIsr.ClearedFrom(garbage, 1) != HalIsr.ClearedFrom(garbage, 0)
  {
    assert HalIsr.ClearedFrom(garbage, 0)[SYS_TICK] == 0;
  }

  class Isr {
    const handlers: array<HalIsr.Handler>

    ghost predicate Valid() reads this {
      handlers.Length == VECTORS_MAX
    }

    /** Allocates the table and clears both entries (the loop counter
        starting at 0, as evidently intended). */
    constructor (garbage: seq<HalIsr.Handler>)
      requires |garbage| == VECTORS_MAX
      ensures Valid() && fresh(handlers)
      ensures handlers[..] == [0, 0]
    {
      var table := new HalIsr.Handler[VECTORS_MAX](i requires 0 <= i < VECTORS_MAX => garbage[i]);
      var i := 0;
      while i < VECTORS_MAX
        invariant 0 <= i <= VECTORS_MAX
        invariant forall k :: 0 <= k < i ==> table[k] == 0
      {
        table[i] := 0;
        i := i + 1;
      }
      handlers := table;
    }

    /** Installs `handler` for `vector` if the vector is below the maximum;
        the other entry does not change. */
    method SetHandler(vector: nat, handler: HalIsr.Handler)
      requires Valid()
      modifies handlers
      ensures handlers[..] == WithHandler(old(handlers[..]), vector, handler)
    {
      if vector < VECTORS_MAX {
        handlers[vector] := handler;
      }
    }
  }

  /** Setting the SysTick handler never touches the global one. */
  lemma SysTickSparesGlobal(table: seq<HalIsr.Handler>, handler: HalIsr.Handler)
    requires |table| == VECTORS_MAX
    ensures WithHandler(table, SYS_TICK, handler) == [handler, table[GLOBAL]]
  {
  }
}
