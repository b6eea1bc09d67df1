# ASch core, modelled in Dafny

ASch is a small cooperative scheduler for an STM32F429ZI board. It comes
with Python scripts that scaffold new modules and keep the SCons file
lists up to date. This project models four parts of it and proves
properties of each.

- **Utilities.**
  - `utils_misc.dfy` and `asch_utils.dfy` model the wrap-around index
    arithmetic and its verbatim copy.
  - `bits.dfy` models the 32-bit get/set/compare helpers of `Utils_Bit.hpp`.
    It also has the masked three-argument forms that the clock and wait code
    call.
  - `utils_queue.dfy` models the fixed-capacity ring buffer `Queue`.
    - It is a class with the source's fields: `numberOfElements`,
      `nextFreeIndex`, `nextIndexInQueue` and the `elements` array.
    - A ghost sequence `Contents` holds the abstract FIFO contents.
    - An invariant ties the fields to `Contents`: count ≤ size, both indices
      < size, and the free index is the head index plus the count, modulo
      the size.
- **HAL.**
  - `hal_gpio.dfy`: the GPIO driver.
    - Each port block is a class with bv32 register fields.
    - The mode, output-type, speed and pull setters are read-modify-writes
      of one 1-bit or 2-bit field.
    - Ports a–g are mapped, and a pin number is at most 15.
  - `hal_clocks.dfy`: the RCC oscillator logic. It covers the ON/RDY bits
    and the SW/SWS system-clock fields.
  - `hal_internal.dfy`: the three count-down polling loops. A hardware
    register that changes by itself is an oracle `nat -> bv32`: the value
    that the i-th read returns.
  - `hal_isr.dfy` and `hal_isr_legacy.dfy`: the two interrupt-handler
    tables.
- **Scheduler.** `asch_scheduler.dfy` models the scheduler class.
  - Its state is the task table (`tasks`, `taskCount`), the event queue (a
    `UtilsQueue.Queue`) and a tick counter.
  - The hardware-facing calls and the task and event handlers leave ghost
    traces: the handlers run, sleeps and wake-ups, and system errors raised.
- **Python build scripts.**
  - `list_creator.dfy`: the line-list and registry readers and their copies.
  - `build_scripts.dfy`: the three-token target reader of the older build
    scripts.
  - `build_target.dfy`: `BuildTarget` over an SCons environment modelled as
    a record of lists.
  - `template_generator.dfy`: the scaffolding script `TemplateGenerator.py`.
  - `py_str.dfy` and `py_dict.dfy` give the Python string and dictionary
    operations these scripts rely on:
    - `split`, `replace` and `str.split()`;
    - universal-newline reading and line iteration;
    - `upper`;
    - insertion-ordered dicts.

The file system is a map from path to contents. Prompt replies, argv and
the date are inputs. `sys.exit(n)` becomes an `Exit(n)` outcome, and a
Python exception becomes a `Raised`/`Failure` value.

## Model

| member | source | states |
|---|---|---|
| UtilsMisc.Increment | Utils/include/Utils_Misc.hpp:48-56 | The incremented index stays below the index type's modulus, and below the limit whenever the limit is positive |
| UtilsMisc.Decrement | Utils/include/Utils_Misc.hpp:58-70 | The decremented index stays below the index type's modulus |
| UtilsMisc.IncrementIndexWithRollover | Utils/include/Utils_Misc.hpp:48-56 | The by-reference update leaves the index at its incremented value |
| UtilsMisc.DecrementIndexWithRollover | Utils/include/Utils_Misc.hpp:58-70 | The by-reference update leaves the index at its decremented value |
| UtilsMisc.IncrementIsCyclic | Utils/include/Utils_Misc.hpp:48-56 | For an index below the limit, incrementing gives (index+1) mod limit, so limit-1 wraps to 0 |
| UtilsMisc.DecrementIsCyclic | Utils/include/Utils_Misc.hpp:58-70 | For an index below the limit, decrementing gives (index+limit-1) mod limit: 0 goes to limit-1, any other index to index-1 |
| UtilsMisc.DecrementOfZeroLimit | Utils/include/Utils_Misc.hpp:63 | With limit 0, the cast of -1 makes the decrement of 0 the largest value of the index type |
| UtilsMisc.DecrementUndoesIncrement | Utils/include/Utils_Misc.hpp:48-70 | On [0, limit), decrement after increment gives back the index |
| UtilsMisc.IncrementUndoesDecrement | Utils/include/Utils_Misc.hpp:48-70 | On [0, limit), increment after decrement gives back the index |
| AschUtils.IncrementIndexWithRollover | Utils/include/ASch_Utils.h:53-61 | The copy computes the same increment as the Utils_Misc version and stays below a positive limit |
| AschUtils.DecrementIndexWithRollover | Utils/include/ASch_Utils.h:63-75 | The copy computes the same decrement and stays below the limit for an index inside it |
| Bits.BitIsSingle | Utils/include/Utils_Bit.hpp:52-55 | Bit(p) has exactly one bit set, and that bit is at position p |
| Bits.GetBitIsBit | Utils/include/Utils_Bit.hpp:61-65 | GetBit holds iff bit p of the field is 1 |
| Bits.GetBitsWithinMask | Utils/include/Utils_Bit.hpp:73-79 | The extracted field has no bit outside the mask |
| Bits.SetBitGet | Utils/include/Utils_Bit.hpp:86-98 | After SetBit(x, p, s), bit p reads back as s |
| Bits.SetBitFrame | Utils/include/Utils_Bit.hpp:86-98 | SetBit leaves any other single bit as it was |
| Bits.SetBitFrameAll | Utils/include/Utils_Bit.hpp:86-98 | SetBit leaves all 31 other bits as they were |
| Bits.SetBitKeepsOther | Utils/include/Utils_Bit.hpp:86-98 | SetBit preserves the field masked by any other single-bit mask |
| Bits.SetBitsFrame | Utils/include/Utils_Bit.hpp:107-117 | SetBits changes no bit outside mask << position |
| Bits.SetBitsField | Utils/include/Utils_Bit.hpp:107-117 | Under mask << position, SetBits writes the shifted pattern |
| Bits.RoundTrip | Utils/include/Utils_Bit.hpp:73-117 | For every field whose shifted mask loses no bit off the top of the register, GetBits after SetBits returns pattern & mask, and CompareBits with the same pattern holds |
| Bits.PairFieldFrame | Utils/include/Utils_Bit.hpp:107-117 | Setting the 2-bit field of pin n leaves the 2-bit field of every other pin k unchanged |
| Bits.FlagFieldFrame | Utils/include/Utils_Bit.hpp:107-117 | Setting the 1-bit field at n leaves the 1-bit field at every other k unchanged |
| Bits.CompareIsGet | Utils/include/Utils_Bit.hpp:127-134 | CompareBits holds iff GetBits equals pattern & mask (both directions) |
| Bits.SetBitsIdempotent | Utils/include/Utils_Bit.hpp:107-117 | Applying SetBits twice with the same arguments equals applying it once |
| Bits.SetMaskedSpec | Hal_STM32F429ZI/sources/Hal_Clocks.cpp:209 | The three-argument masked set writes the pattern under the mask and keeps every bit outside it |
| Bits.SetMaskedIdempotent | Hal_STM32F429ZI/sources/Hal_Clocks.cpp:209 | The masked set is idempotent |
| Bits.CompareMaskedSound | Hal_STM32F429ZI/sources/Hal_Internal.cpp:92 | If the masked compare holds, writing the pattern under the mask changes nothing |
| Bits.CompareMaskedComplete | Hal_STM32F429ZI/sources/Hal_Internal.cpp:92 | If writing the pattern under the mask changes nothing, the masked compare holds |
| Bits.DocumentedExamples | Utils/include/Utils_Bit.hpp:67-134 | The worked examples in the doc comments: 10100101b with position 3 and mask 111b gets 100b, set to 011b gives 10011101b, and compares equal to 100b |
| UtilsQueue.Slot | Utils/include/Utils_Queue.hpp:85-90 | The array slot of a logical offset from the head is below the size and wraps around once |
| UtilsQueue.SlotsDistinct | Utils/include/Utils_Queue.hpp:85-90 | Distinct logical positions occupy distinct slots, so a push never overwrites a queued element |
| UtilsQueue.Queue.constructor | Utils/include/Utils_Queue.hpp:93-99 | A new queue is empty with count and both indices 0; the size must fit the uint8_t counters |
| UtilsQueue.Queue.Push | Utils/include/Utils_Queue.hpp:101-120 | A full queue returns true and changes nothing. Otherwise the element is appended to the contents, the free index advances with wrap-around, the head index stays, and the result is false. The invariant is kept |
| UtilsQueue.Queue.Pop | Utils/include/Utils_Queue.hpp:122-141 | An empty queue returns true and hands back the caller's element unchanged. Otherwise it yields the oldest element, drops it from the contents, advances the head index with wrap-around, and returns false |
| UtilsQueue.Queue.GetNumberOfElements | Utils/include/Utils_Queue.hpp:143-147 | Returns the number of queued elements (at most the size) and changes nothing |
| UtilsQueue.Queue.Flush | Utils/include/Utils_Queue.hpp:149-157 | Empties the queue and zeroes the count and both indices |
| UtilsQueue.PushAllAppends | Utils/include/Utils_Queue.hpp:101-120 | Pushing a run of elements that fits appends them in order, so pops return them first-in first-out |
| UtilsQueue.PushAllWhenFull | Utils/include/Utils_Queue.hpp:114-117 | Pushing onto a full queue leaves the contents unchanged |
| UtilsQueue.PushAllBounded | Utils/include/Utils_Queue.hpp:85-90 | However many elements are pushed, the contents never exceed the capacity |
| HalGpio.ModeCodeRoundTrip | Hal_STM32F429ZI/sources/Hal_Gpio.cpp:175-187 | The 2-bit mode code and the mode enum convert into each other without loss, both ways |
| HalGpio.SpeedCodeRoundTrip | Hal_STM32F429ZI/sources/Hal_Gpio.cpp:200-212 | The same for the speed code |
| HalGpio.PullCodeRoundTrip | Hal_STM32F429ZI/sources/Hal_Gpio.cpp:214-226 | The same for the pull code |
| HalGpio.Gpio.constructor | Hal_STM32F429ZI/sources/Hal_Gpio.cpp:50-59 | The driver sees the seven distinct port blocks a–g |
| HalGpio.Gpio.GetConfiguration | Hal_STM32F429ZI/sources/Hal_Gpio.cpp:101-112 | Fills mode, open-drain flag, speed and pull from the pin's register fields. Keeps the pin, always reports sys1 as the alternate function, and writes nothing |
| HalGpio.Gpio.SetMode | Hal_STM32F429ZI/sources/Hal_Gpio.cpp:182-187 | The pin's 2-bit MODER field reads back as the mode; every other pin's field is unchanged |
| HalGpio.Gpio.SetOpenDrain | Hal_STM32F429ZI/sources/Hal_Gpio.cpp:194-198 | OTYPER bit n becomes the flag; every other pin's bit is unchanged |
| HalGpio.Gpio.SetSpeed | Hal_STM32F429ZI/sources/Hal_Gpio.cpp:207-212 | The pin's OSPEEDR field reads back as the speed; other pins unchanged |
| HalGpio.Gpio.SetPull | Hal_STM32F429ZI/sources/Hal_Gpio.cpp:221-226 | The pin's PUPDR field reads back as the pull; other pins unchanged |
| HalGpio.Gpio.SetAlternateFunction | Hal_STM32F429ZI/sources/Hal_Gpio.cpp:228-236 | Writes no register; the alternate function still reads as sys1 |
| HalGpio.Gpio.SetConfiguration | Hal_STM32F429ZI/sources/Hal_Gpio.cpp:114-125 | Reading the configuration back gives what was written, except that the alternate function reads as sys1. Only the four configuration registers of that port change, and in them every other pin's field keeps its value |
| HalGpio.Gpio.SetOutputState | Hal_STM32F429ZI/sources/Hal_Gpio.cpp:127-140 | Sets BSRR bit n to drive high and bit n+16 to drive low; no other BSRR bit changes |
| HalGpio.Gpio.GetInputState | Hal_STM32F429ZI/sources/Hal_Gpio.cpp:142-146 | Returns IDR bit n and writes nothing |
| HalGpio.Gpio.GetOutputState | Hal_STM32F429ZI/sources/Hal_Gpio.cpp:148-152 | Returns ODR bit n and writes nothing |
| HalGpio.Gpio.LockPort | Hal_STM32F429ZI/sources/Hal_Gpio.cpp:154-169 | The lock sequence is compiled out, so LCKR is unchanged |
| HalGpio.ConfigurationExample | Hal_STM32F429ZI/tests/UTest_Hal_Gpio.cpp:55-86 | The register values the driver test expects for PC5 as an open-drain, high-speed, pull-up output on cleared registers |
| HalClocks.Rcc.SetBit | Hal_STM32F429ZI/sources/Hal_Clocks.cpp:94-110 | Updating one bit of CR, CSR or BDCR changes that register through SetBit and no other register |
| HalClocks.Rcc.SetCfgrBits | Hal_STM32F429ZI/sources/Hal_Clocks.cpp:209-219 | The masked write of CFGR changes CFGR only |
| HalClocks.Clocks.constructor | Hal_STM32F429ZI/sources/Hal_Clocks.cpp:47-80 | The stored system clock frequency starts at the 16 MHz default |
| HalClocks.Clocks.Enable | Hal_STM32F429ZI/sources/Hal_Clocks.cpp:85-121 | The RCC registers become the Enabled image of the old ones, whatever the hardware reports during the wait |
| HalClocks.Clocks.Disable | Hal_STM32F429ZI/sources/Hal_Clocks.cpp:123-159 | The RCC registers become the Disabled image of the old ones |
| HalClocks.Clocks.SetSysClockSource | Hal_STM32F429ZI/sources/Hal_Clocks.cpp:200-231 | The RCC registers become the SourceSelected image of the old ones |
| HalClocks.EnableSetsOnBit | Hal_STM32F429ZI/sources/Hal_Clocks.cpp:91-116 | Enabling a stopped HSI, HSE, LSI or LSE sets exactly its ON bit and leaves every other register unchanged |
| HalClocks.EnableRunningIsNoOp | Hal_STM32F429ZI/sources/Hal_Clocks.cpp:87 | Enabling a running oscillator, or one with no ON bit here (PLL, unknown), changes no register |
| HalClocks.EnableLeavesReadyBit | Hal_STM32F429ZI/sources/Hal_Clocks.cpp:161-193 | Enable never writes a ready bit: whether the oscillator reads as running is the hardware's doing |
| HalClocks.DisableClearsOnBit | Hal_STM32F429ZI/sources/Hal_Clocks.cpp:125-155 | Disabling a running oscillator that is not the system clock clears exactly its ON bit; other registers are unchanged |
| HalClocks.DisableSparesSystemClock | Hal_STM32F429ZI/sources/Hal_Clocks.cpp:125 | Disabling the current system clock source changes nothing |
| HalClocks.SelectWritesSwitchField | Hal_STM32F429ZI/sources/Hal_Clocks.cpp:200-231 | Selecting a running HSI, HSE or PLL writes its SW code (0, SW_0, SW_1) and keeps every other CFGR bit |
| HalClocks.StatusMirrorsSwitch | Hal_STM32F429ZI/sources/Hal_Clocks.cpp:209-220 | The SWS value awaited for each source is its SW code shifted two bits up |
| HalClocks.AwaitedStatusReadsBack | Hal_STM32F429ZI/sources/Hal_Clocks.cpp:233-258 | Once CFGR shows the awaited SWS value, GetSysClockSource reports the requested oscillator |
| HalClocks.ReportedSourceIsSwitchable | Hal_STM32F429ZI/sources/Hal_Clocks.cpp:233-258 | The decoder reports only HSI, HSE, PLL or unknown, and never a low-speed oscillator |
| HalInternal.WaitForBitToSet | Hal_STM32F429ZI/sources/Hal_Internal.cpp:60-71 | Returns false iff the bit is set in one of the first (frequency >> 1) register reads; otherwise it times out |
| HalInternal.WaitForBitToClear | Hal_STM32F429ZI/sources/Hal_Internal.cpp:73-84 | The mirror image: false iff the bit is clear within the budget |
| HalInternal.WaitForBitPatternToSet | Hal_STM32F429ZI/sources/Hal_Internal.cpp:86-97 | False iff a read within the budget matches the pattern under the mask |
| HalInternal.ConstantRegisterSet | Hal_STM32F429ZI/tests/UTest_Hal_Internal.cpp:52-80 | With a register that does not change and a positive budget, the wait succeeds iff the bit is already set |
| HalInternal.ConstantRegisterClear | Hal_STM32F429ZI/tests/UTest_Hal_Internal.cpp:88-116 | With a constant register, waiting for a clear bit succeeds iff the bit is clear |
| HalInternal.ZeroBoundTimesOut | Hal_STM32F429ZI/sources/Hal_Internal.cpp:65-70 | With a zero budget every wait times out |
| HalInternal.SetWithinMonotonic | Hal_STM32F429ZI/sources/Hal_Internal.cpp:60-71 | A longer budget never turns a success into a timeout |
| HalInternal.DefaultWindow | Hal_STM32F429ZI/sources/Hal_Internal.cpp:65 | At the default 16 MHz the budget is 8 000 000 reads |
| HalIsr.ClearedFrom | Hal_STM32F429ZI/sources/Hal_Isr.cpp:66-73 | What the zeroing loop leaves from a start value: entries at or past the start are 0, earlier ones keep their handler |
| HalIsr.WithHandler | Hal_STM32F429ZI/sources/Hal_Isr.cpp:75-82 | An in-range type gets the handler; an out-of-range type changes nothing; no other entry changes |
| HalIsr.ClearHandlersAsWritten | Hal_STM32F429ZI/sources/Hal_Isr.cpp:66-73 | The constructor's loop, run from whatever value the uninitialised counter holds, leaves the ClearedFrom table |
| HalIsr.AsWrittenKeepsStaleHandler | Hal_STM32F429ZI/sources/Hal_Isr.cpp:66-73 | If the counter starts at the table size, a stale handler survives construction, unlike the intended zeroing |
| HalIsr.Isr.constructor | Hal_STM32F429ZI/sources/Hal_Isr.cpp:61-73 | Corrected constructor: every entry of the shared static table is zero, including those set through an earlier Isr |
| HalIsr.Isr.SetHandler | Hal_STM32F429ZI/sources/Hal_Isr.cpp:75-82 | The table becomes WithHandler of the old table |
| HalIsr.Isr.Enable | Hal_STM32F429ZI/sources/Hal_Isr.cpp:84-87 | The handler table is unchanged |
| HalIsr.Isr.Disable | Hal_STM32F429ZI/sources/Hal_Isr.cpp:89-92 | The handler table is unchanged |
| HalIsr.SetHandlerLastWins | Hal_STM32F429ZI/sources/Hal_Isr.cpp:75-82 | Setting the same interrupt twice keeps only the second handler |
| HalIsr.SetHandlersCommute | Hal_STM32F429ZI/sources/Hal_Isr.cpp:75-82 | Setting handlers for two different interrupts gives the same table in either order |
| HalIsrLegacy.WithHandler | Hal/sources/Hal_Isr.cpp:71-78 | An in-range vector gets the handler; an out-of-range one changes nothing; the other entry is kept |
| HalIsrLegacy.ClearHandlersAsWritten | Hal/sources/Hal_Isr.cpp:62-69 | The older constructor's loop from an arbitrary counter value leaves the ClearedFrom table |
| HalIsrLegacy.AsWrittenLeavesGarbage | Hal/sources/Hal_Isr.cpp:62-69 | A counter starting at 1 leaves the SysTick entry holding whatever the per-instance array held |
| HalIsrLegacy.Isr.constructor | Hal/sources/Hal_Isr.cpp:62-69 | Corrected constructor: both vectors of the new per-instance table are 0, whatever memory held before |
| HalIsrLegacy.Isr.SetHandler | Hal/sources/Hal_Isr.cpp:71-78 | The table becomes WithHandler of the old table |
| HalIsrLegacy.SysTickSparesGlobal | Hal/sources/Hal_Isr.cpp:71-78 | Setting the SysTick handler keeps the global handler |
| AschScheduler.Find | ASch/include/ASch_Scheduler.hpp:114-115 | The position of the first task with the handler, or the table length if there is none |
| AschScheduler.FindIsFirst | ASch/include/ASch_Scheduler.hpp:114-115 | Find is the only position with that first-occurrence property |
| AschScheduler.FindIffPresent | ASch/include/ASch_Scheduler.hpp:114-115 | Find is inside the table iff some task has the handler |
| AschScheduler.Scheduler.constructor | ASch/tests/UTest_ASch_Scheduler.cpp:258-285 | No tasks, no events, stopped, tick 0. A tick interval of 0 raises InvalidParameters |
| AschScheduler.Scheduler.Start | ASch/tests/UTest_ASch_Scheduler.cpp:159-256 | Starts the tick source. Tasks, errors, ticks, pending tasks, runs, wake-ups and sleeps are unchanged |
| AschScheduler.Scheduler.Stop | ASch/tests/UTest_ASch_Scheduler.cpp:159-256 | Stops the tick source. Tasks, errors, ticks, pending tasks, runs, wake-ups and sleeps are unchanged |
| AschScheduler.Scheduler.GetTaskCount | ASch/include/ASch_Scheduler.hpp:113 | Returns the number of tasks, which is at most the table size |
| AschScheduler.Scheduler.GetTaskInterval | ASch/include/ASch_Scheduler.hpp:117 | Returns the interval of the task with that id, or 0 past the last task |
| AschScheduler.Scheduler.CreateTask | ASch/tests/UTest_ASch_Scheduler.cpp:505-561 | The table becomes Created(old table). On a full table it is unchanged and InsufficientResources is raised. Events, ticks, runs, wake-ups, sleeps, the tick interval and the running flag are unchanged |
| AschScheduler.Scheduler.DeleteTask | ASch/tests/UTest_ASch_Scheduler.cpp:453-484 | The table becomes Removed(old table). Errors, events, ticks, runs, wake-ups, sleeps, the tick interval and the running flag are unchanged |
| AschScheduler.Scheduler.SysTickHandler | ASch/tests/UTest_ASch_Scheduler.cpp:322-338 | The tick count grows by one and the tasks due on the new tick become pending, in table order; the processor is woken iff any task is due. Tasks, runs, sleeps, errors and the running flag are unchanged |
| AschScheduler.Scheduler.RunTasks | ASch/include/ASch_Scheduler.hpp:118 | Runs every pending task in order and clears the pending list. Tasks, ticks, events, wake-ups, sleeps, errors and the running flag are unchanged |
| AschScheduler.Scheduler.Sleep | ASch/include/ASch_Scheduler.hpp:120 | Records one sleep. The task count, ticks, pending tasks, runs, wake-ups, errors and the running flag are unchanged |
| AschScheduler.Scheduler.WakeUp | ASch/include/ASch_Scheduler.hpp:121 | Records one wake-up. The task count, ticks, pending tasks, runs, sleeps, errors and the running flag are unchanged |
| AschScheduler.Scheduler.PushEvent | ASch/include/ASch_Scheduler.hpp:123 | Enqueues the event and wakes the processor. On a full queue the event is dropped and BufferOverflow is raised. Tasks, ticks, pending tasks, runs, sleeps and the running flag are unchanged |
| AschScheduler.Scheduler.RunEvents | ASch/tests/UTest_ASch_Scheduler.cpp:713-753 | Dispatches every queued event exactly once, in push order with its payload, and leaves the queue empty. Tasks, ticks, pending tasks, task runs, wake-ups, sleeps, errors and the running flag are unchanged |
| AschScheduler.Scheduler.SchedulerLoop | ASch/tests/UTest_ASch_Scheduler.cpp:773-820 | One pass runs all events and all pending tasks, sleeping only when there was nothing to do; a second pass dispatches nothing. Tasks, ticks, wake-ups, errors and the running flag are unchanged |
| AschScheduler.CreatedRegistersTask | ASch/tests/UTest_ASch_Scheduler.cpp:305-320 | After a successful create, the handler's task has the new interval |
| AschScheduler.CreatedKeepsOthers | ASch/tests/UTest_ASch_Scheduler.cpp:539-561 | An existing handler keeps its place and count; a new one is appended at the end. Every other task is unchanged |
| AschScheduler.CreatedFailsOnlyWhenFull | ASch/tests/UTest_ASch_Scheduler.cpp:675-690 | Creating fails iff the handler is new and the table already holds the maximum, and the error is InsufficientResources |
| AschScheduler.CreatedKeepsUnique | ASch/tests/UTest_ASch_Scheduler.cpp:505-519 | Creating keeps handlers unique and the table within its capacity |
| AschScheduler.RemovedShiftsDown | ASch/tests/UTest_ASch_Scheduler.cpp:453-468 | Deleting shortens the table by one; earlier tasks keep their ids and later ids shift down by one |
| AschScheduler.RemovedAbsentIsNoOp | ASch/tests/UTest_ASch_Scheduler.cpp:644-656 | Deleting an absent handler changes nothing |
| AschScheduler.RemovedIsGone | ASch/tests/UTest_ASch_Scheduler.cpp:453-484 | After a delete, no task has that handler |
| AschScheduler.RemovedKeepsUnique | ASch/tests/UTest_ASch_Scheduler.cpp:453-484 | Deleting keeps handlers unique and never grows the table |
| AschScheduler.CreateThenDelete | ASch/tests/UTest_ASch_Scheduler.cpp:453-484 | Creating a new task and then deleting it gives back the original table |
| AschScheduler.DueIffIsDue | ASch/tests/UTest_ASch_Scheduler.cpp:379-424 | A task is collected on a tick iff that tick is a positive multiple of its interval |
| AschScheduler.DueOnlyFromTable | ASch/tests/UTest_ASch_Scheduler.cpp:379-424 | Only tasks in the table are ever collected |
| AschScheduler.RunsEveryNthTick | ASch/tests/UTest_ASch_Scheduler.cpp:322-338 | Up to tick t, a task with interval n is collected exactly t / n times, first on tick n |
| ListCreator.CreateListFromFile | site_scons/ListCreator.py:10-18 | A missing file raises FileNotFoundError; otherwise it returns ListOf the file's text. The identical copies in Scripts/BuildUtils.py (lines 11-16), Build/Scripts/BuildUtils.py (`GenerateList`, lines 3-8) and Scons/build.py (`GenerateList`, lines 3-8) read lists the same way |
| ListCreator.ListIsSplit | site_scons/ListCreator.py:13-16 | One entry per line in file order: the newline-normalised text split at '\n', with a final empty piece dropped. No entry contains '\r' or '\n', and an empty file gives [] |
| ListCreator.ListOfJoin | site_scons/ListCreator.py:13-16 | Entries without line breaks, written one per line, read back as the same entries, duplicates and empty lines included |
| ListCreator.ListAppend | site_scons/ListCreator.py:13-16 | Appending a line after a newline adds exactly that one entry at the end |
| ListCreator.CreateDictionaryFromFile | site_scons/ListCreator.py:20-27 | A missing file raises FileNotFoundError; otherwise it returns the registry built from the file's lines. The identical copy in Scripts/BuildUtils.py (lines 18-24) builds it the same way |
| ListCreator.RegistryFailureSticks | site_scons/ListCreator.py:24-26 | Once a prefix of the lines raises, the whole file raises the same error |
| ListCreator.RegistryFailsIffBlankLine | site_scons/ListCreator.py:25-26 | Reading fails, with IndexError, iff some line is blank or whitespace-only |
| ListCreator.RegistryKeys | site_scons/ListCreator.py:24-26 | The registry's keys are exactly the first tokens of the lines |
| ListCreator.RegistryLastKeyWins | site_scons/ListCreator.py:26 | Each key maps to the remaining tokens of the last line with that key |
| ListCreator.RegistryExample | site_scons/ListCreator.py:26 | Two lines with the same key keep only the second value |
| BuildScripts.GenerateTargetDictionary | Build/Scripts/BuildUtils.py:10-16 | A missing registry raises FileNotFoundError; otherwise it returns the target table of its lines |
| BuildScripts.TargetTableFailureSticks | Build/Scripts/BuildUtils.py:13-15 | Once a prefix raises, the whole file raises the same error |
| BuildScripts.TargetTableShape | Build/Scripts/BuildUtils.py:13-15 | Fails with IndexError iff some line has fewer than three tokens; on success every value is exactly two tokens |
| BuildScripts.TargetTableIsRegistry | Build/Scripts/BuildUtils.py:13-15 | On three-token lines the older reader agrees with the generic registry reader |
| PyStr.ReplaceIsSplitJoin | Scripts/TemplateGenerator.py:68 | str.replace equals splitting at the pattern and joining with the replacement |
| PyStr.SplitJoinRoundTrip | Scripts/TemplateGenerator.py:68 | Joining the pieces of a split with the same separator gives back the string |
| PyStr.ReplaceSameIsIdentity | Scripts/TemplateGenerator.py:68 | Replacing a tag by itself changes nothing |
| PyStr.ReplaceAbsent | Scripts/TemplateGenerator.py:68 | A line without the tag is unchanged |
| PyStr.SplitOfJoin | site_scons/ListCreator.py:14-15 | Splitting at a character gives back pieces joined with it that do not contain it |
| PyStr.TokensAreWords | site_scons/ListCreator.py:25 | str.split() yields non-empty words without whitespace |
| PyStr.TokensEmptyIffBlank | site_scons/ListCreator.py:25 | str.split() yields no word iff the line is all whitespace |
| PyStr.TokensSkipSpaces | site_scons/ListCreator.py:25 | Leading whitespace does not change the words |
| PyStr.TokensOfJoin | site_scons/ListCreator.py:25 | Words joined by single spaces split back into the same words |
| PyStr.NormaliseHasNoCR | site_scons/ListCreator.py:13-14 | Text read in universal-newline mode has no '\r' |
| PyStr.NormaliseIdentity | site_scons/ListCreator.py:13-14 | Text without '\r' reads unchanged |
| PyStr.FileLinesConcat | site_scons/ListCreator.py:14 | The lines a file yields concatenate back to its text |
| PyStr.StrippedLinesAreSplit | site_scons/ListCreator.py:14-15 | Each line with '\r' and '\n' removed is the matching piece of the text split at '\n' |
| PyStr.Strip | site_scons/ListCreator.py:15 | The translated line contains neither '\r' nor '\n' |
| PyStr.StripAppend | site_scons/ListCreator.py:15 | Deleting line-break characters distributes over concatenation |
| PyStr.Upper | Scripts/TemplateGenerator.py:61 | Upper-casing keeps the length and maps each character by itself |
| PyStr.UpperIdempotent | Scripts/TemplateGenerator.py:142 | Upper-casing twice is upper-casing once |
| PyDict.Put | Scripts/TemplateGenerator.py:50 | After d[k] = v, k looks up v and every other key looks up what it did before |
| PyDict.PutOrder | Scripts/TemplateGenerator.py:50 | Assignment keeps the dict well formed. A new key goes last and an existing key keeps its place, so iteration order is insertion order |
| PyDict.Pair | Scripts/TemplateGenerator.py:26-27 | The two-entry literal has those keys in that order with those values |
| TemplateGenerator.Initial | Scripts/TemplateGenerator.py:26-27 | The class-level keywords start as the date and year tags, in that order |
| TemplateGenerator.HeaderGuard | Scripts/TemplateGenerator.py:61 | The header guard is the module name upper-cased, followed by "_HPP_" |
| TemplateGenerator.ClassName | Scripts/TemplateGenerator.py:62 | The class name is the longest all-letter suffix of the module name: the text after its last non-letter, empty if the name ends in one |
| TemplateGenerator.ClassNameOf | Scripts/TemplateGenerator.py:62 | A name ending in a separator and a word gives that word |
| TemplateGenerator.DerivedTagsExample | Scripts/TemplateGenerator.py:62 | "Utils_Queue" gives "Queue", and "Hal_Gpio2" gives "" |
| TemplateGenerator.HeaderGuardExample | Scripts/TemplateGenerator.py:61 | "Utils_Queue" gives "UTILS_QUEUE_HPP_" |
| TemplateGenerator.LaterArgumentWins | Scripts/TemplateGenerator.py:47-52 | The last argument with a given prefix decides its value |
| TemplateGenerator.ParamLookup | Scripts/TemplateGenerator.py:48-50 | An argument with a parameter prefix sets that tag to the text after the prefix; otherwise the tag keeps its value |
| TemplateGenerator.ParametersLookup | Scripts/TemplateGenerator.py:48-50 | Each of the five options sets only its own tag; keys other than those tags are untouched |
| TemplateGenerator.OtherKeyLookup | Scripts/TemplateGenerator.py:48-50 | Keys that are not parameter tags are not changed by an argument |
| TemplateGenerator.ParametersKeepTags | Scripts/TemplateGenerator.py:48-50 | Parsing an argument keeps the dictionary a dictionary of tags |
| TemplateGenerator.ArgumentsLookup | Scripts/TemplateGenerator.py:47-52 | After the argument loop, each tag holds the value of the last argument with its prefix, or its old value; the HAL mode is the last --hal= value or the old mode |
| TemplateGenerator.DerivedLookup | Scripts/TemplateGenerator.py:58-62 | PATH defaults to ""; HEADERGUARD and CLASS are derived from the module; nothing else changes |
| TemplateGenerator.InitialisedTags | Scripts/TemplateGenerator.py:32-63 | With a --module= argument, the finished dictionary starts with date and year. It holds the last module and path values (path defaulting to "") and the derived header guard and class name |
| TemplateGenerator.ParsedTags | Scripts/TemplateGenerator.py:47-59 | Before derivation, module and path hold the last matching arguments and date and year are kept |
| TemplateGenerator.SubstitutedUnchanged | Scripts/TemplateGenerator.py:66-69 | A line that contains no tag is unchanged; unknown tags stay verbatim |
| TemplateGenerator.SubstitutionOrder | Scripts/TemplateGenerator.py:66-69 | Tags are replaced in dictionary order on the progressively rewritten line, so a value that contains a later tag is expanded again and one that contains an earlier tag is not |
| TemplateGenerator.RenderedVerbatim | Scripts/TemplateGenerator.py:72-81 | A template without tag characters is copied verbatim |
| TemplateGenerator.TargetsByMode | Scripts/TemplateGenerator.py:153-158 | Mode "header" writes the header; "header_with_tests" the test and the header; "source" the source and the test; any other mode all three |
| TemplateGenerator.TargetFilesDistinct | Scripts/TemplateGenerator.py:135-136 | The three target paths differ, and none is a template or a SCons list |
| TemplateGenerator.GenerateTargetsSucceeds | Scripts/TemplateGenerator.py:76-77 | Generation returns normally iff every template exists |
| TemplateGenerator.GenerateTargetsWrites | Scripts/TemplateGenerator.py:72-81 | After a normal return, each target holds its template with every tag replaced |
| TemplateGenerator.GenerateTargetsFrame | Scripts/TemplateGenerator.py:72-81 | Files other than the targets are untouched |
| TemplateGenerator.GenerateTargetsOutcome | Scripts/TemplateGenerator.py:72-81 | Generation either returns or raises; it never exits |
| TemplateGenerator.AppendIfAbsent | Scripts/TemplateGenerator.py:105-111 | Afterwards the file contains the text, and its old contents are a prefix |
| TemplateGenerator.AppendIfAbsentIdempotent | Scripts/TemplateGenerator.py:105-130 | Appending the same text twice is appending it once |
| TemplateGenerator.UTestIncludeListEntries | Scripts/TemplateGenerator.py:88-94 | The written include list reads back as ./Config/include, the sources dir, and the include dir unless the mode is "source" |
| TemplateGenerator.UTestSourcesListEntries | Scripts/TemplateGenerator.py:97-102 | The written sources list reads back as the module source (unless "header_with_tests") followed by the test source |
| TemplateGenerator.SconsUpdatedFrame | Scripts/TemplateGenerator.py:84-131 | Only the two per-target lists and the three shared lists can change |
| TemplateGenerator.SconsUpdatedRegisters | Scripts/TemplateGenerator.py:105-130 | Afterwards the include list names the include dir. Unless the mode is "header", the targets list names the module. Unless the mode is a header mode, the release sources list names the source |
| TemplateGenerator.SconsUpdatedIdempotent | Scripts/TemplateGenerator.py:84-131 | Running the SCons update a second time changes nothing |
| TemplateGenerator.TargetLineTokens | Scripts/TemplateGenerator.py:106 | The registry line splits into the module name and ".\" followed by the path |
| TemplateGenerator.AppendedTargetRegistered | Scripts/TemplateGenerator.py:105-110 | The registry reader maps the appended module to its one-element backslash path |
| TemplateGenerator.AppendedTargetBreaksOlderReader | Build/Scripts/BuildUtils.py:13-15 | The two-token line that the script appends makes the older three-token reader raise IndexError |
| TemplateGenerator.OverwriteGateIffTargetExists | Scripts/TemplateGenerator.py:139 | The corrected gate asks for "YES" iff a source or header file the mode will write already exists |
| TemplateGenerator.AsWrittenGateChecksUnwrittenHeader | Scripts/TemplateGenerator.py:139 | In "source" mode the gate as written asks about the header, which that mode does not write |
| TemplateGenerator.AsWrittenGateSkipsHeader | Scripts/TemplateGenerator.py:139 | In mode "sources" the gate as written ignores an existing header that will be overwritten |
| TemplateGenerator.ConsentRule | Scripts/TemplateGenerator.py:141-150 | With the overwrite prompt, consent is a reply starting with "yes" in any case. Otherwise it is a first character y or Y, and an empty reply raises IndexError |
| TemplateGenerator.AllGeneratedRefused | Scripts/TemplateGenerator.py:139-150 | Without consent nothing is written, and the script exits with 1 or raises |
| TemplateGenerator.AllGeneratedWrites | Scripts/TemplateGenerator.py:152-161 | After a normal run every target of the mode holds its rendered template and the include list names the include dir |
| TemplateGenerator.AllGeneratedRefusedOrRuns | Scripts/TemplateGenerator.py:134-164 | Generation never exits with status 0 |
| TemplateGenerator.Template.constructor | Scripts/TemplateGenerator.py:18-29 | Keywords start as date and year; the HAL mode is "" |
| TemplateGenerator.Template.ApplyArgument | Scripts/TemplateGenerator.py:48-52 | One pass of the argument loop: the parameter tags and the HAL mode are updated as WithParameters says |
| TemplateGenerator.Template.DeriveTags | Scripts/TemplateGenerator.py:58-62 | Adds the path default and the derived tags |
| TemplateGenerator.Template.Init | Scripts/TemplateGenerator.py:32-63 | No argument raises IndexError and "-h" exits 0, both with no change. Otherwise the arguments are parsed; without a module it exits 1, and with one it returns the derived dictionary |
| TemplateGenerator.Template.ParseLine | Scripts/TemplateGenerator.py:66-69 | Returns the line with every tag substituted in dictionary order |
| TemplateGenerator.Template.GenerateFromTemplate | Scripts/TemplateGenerator.py:72-81 | The disk becomes FromTemplate of the old disk |
| TemplateGenerator.Template.GenerateSconsFiles | Scripts/TemplateGenerator.py:84-131 | The disk becomes SconsUpdated of the old disk |
| TemplateGenerator.Template.GenerateAll | Scripts/TemplateGenerator.py:134-164 | Corrected: the disk becomes AllGenerated of the old disk, where the overwrite prompt checks the targets the mode writes (OverwriteGate), not the line-139 test of "sources" |
| TemplateGenerator.AppendIfAbsentTo | Scripts/TemplateGenerator.py:105-111 | The disk becomes Appended of the old disk; a missing list file raises FileNotFoundError |
| TemplateGenerator.Script | Scripts/TemplateGenerator.py:166-171 | Corrected: running the script changes the disk as Scripted says, with the corrected overwrite prompt of GenerateAll |
| TemplateGenerator.ScriptNeedsModule | Scripts/TemplateGenerator.py:54-56 | Without --module= the script exits 1 before reading or writing any file; "-h" exits 0 |
| TemplateGenerator.ScriptExitsZeroOnlyForHelp | Scripts/TemplateGenerator.py:34-45 | The script calls sys.exit(0) iff the first argument is "-h" |
| BuildTarget.ObjectNameOfPath | site_scons/BuildTarget.py:40 | With the dot escaped, the object name of dir/base.cpp is base |
| BuildTarget.ObjectNameExample | site_scons/BuildTarget.py:40 | With the dot escaped, "./Utils/cppHelpers.cpp" gives "cppHelpers" |
| BuildTarget.ObjectNameAsWrittenTakesDirectory | site_scons/BuildTarget.py:40 | With the unescaped dot, a file whose name starts with "cpp" is named after its directory |
| BuildTarget.ObjectNameAsWrittenExample | site_scons/BuildTarget.py:40 | As written, "./Utils/cppHelpers.cpp" gives "Utils" |
| BuildTarget.AppendUniqueContents | site_scons/BuildTarget.py:22 | Append-unique keeps the old list as a prefix and adds exactly the missing values, each once. The result holds the old values and the new ones; distinct lists stay distinct |
| BuildTarget.AppendUniquePresent | site_scons/BuildTarget.py:22 | Appending values already present changes nothing |
| BuildTarget.AppendUniqueIdempotent | site_scons/BuildTarget.py:28-29 | Appending the same values twice is appending them once |
| BuildTarget.Env.AppendUnique | site_scons/BuildTarget.py:22 | The named variable is append-unique updated; the others are untouched |
| BuildTarget.Env.Object | site_scons/BuildTarget.py:40 | Declares one object with its source and returns the node |
| BuildTarget.Env.Program | site_scons/BuildTarget.py:42 | Declares the program from the objects and returns the node |
| BuildTarget.Env.Alias | site_scons/BuildTarget.py:43-44 | Records one alias |
| BuildTarget.Env.NoClean | site_scons/BuildTarget.py:46 | Records one no-clean node |
| BuildTarget.ReadList | site_scons/BuildTarget.py:15 | A missing key raises KeyError, a missing file raises FileNotFoundError, and otherwise the list is read |
| BuildTarget.ObjectsFailureSticks | site_scons/BuildTarget.py:38-40 | Once a source has no object name, the loop stops there |
| BuildTarget.ObjectsOfAllNamed | site_scons/BuildTarget.py:38-40 | The loop completes iff every source has an object name; then it declares one object per source, in order, at ./Build/Objects/target/name |
| BuildTarget.BuildObjects | site_scons/BuildTarget.py:38-40 | The loop declares exactly those objects and returns their nodes |
| BuildTarget.LinkTarget | site_scons/BuildTarget.py:31-48 | Adds the test include dirs for a test target, declares the objects and links the program with its aliases |
| BuildTarget.BuildTarget | site_scons/BuildTarget.py:12-48 | Corrected: the environment and outcome are those of Built, which imports sys and escapes the dot before "cpp" |
| BuildTarget.ReadFailureExits | site_scons/BuildTarget.py:14-26 | Corrected: a failure reading the sources or includes exits with 1 and leaves the environment as it was |
| BuildTarget.AsWrittenReadFailureRaisesNameError | site_scons/BuildTarget.py:14-26 | As written, the same failure raises NameError for sys instead |
| BuildTarget.MissingSourcesExample | site_scons/BuildTarget.py:14-19 | With no "sources" entry the firmware build raises NameError as written, and exits 1 once corrected |
| BuildTarget.FlagsHaveNoFallback | site_scons/BuildTarget.py:28-29 | A failure reading a flags file propagates. Only the include dirs were added by then, and no object was declared |
| BuildTarget.BuiltIncludePath | site_scons/BuildTarget.py:22-35 | CPPPATH keeps its old entries first. It then holds exactly the old entries, the include dirs, and for a test target ./Catch and ./FakeIt, with no duplicates added |
| BuildTarget.BuiltFlags | site_scons/BuildTarget.py:28-29 | CCFLAGS and LINKFLAGS gain exactly the listed flags, append-unique |
| BuildTarget.BuiltProgram | site_scons/BuildTarget.py:31-48 | "ASch" links ./Build/Release/ASch and any other target ./Build/Tests/t_UTest. There is one object per source, in order; the program is declared from them, aliased as t and t_executable, and marked no-clean |
| BuildTarget.UnnamedSourceRaises | site_scons/BuildTarget.py:40 | A source path with no ".cpp" after a slash raises IndexError before any program is declared |
| BuildTarget.BuiltTwiceSameVariables | site_scons/BuildTarget.py:22-35 | Building the same target twice leaves CPPPATH, CCFLAGS and LINKFLAGS as after the first build |

## Left out

- I/O is modelled, not performed.
  - Files are a map from path to contents. There are no directories, so
    the `os.makedirs` of the target's directory
    (`Scripts/TemplateGenerator.py:73-74`) has no counterpart, and a write
    never fails for a missing directory.
  - `print` output is dropped.
  - `input()` replies, `sys.argv` and `datetime.now()` are parameters.
  - `sys.exit` is an outcome.
  - The script's top-level `except` is the `Raised` outcome.
- SCons itself is not modelled. `env` is a record of the calls made on it
  (variables, objects, programs, aliases, no-clean nodes). No build
  graph is computed.
- The regular expressions are modelled by hand for the one pattern each
  script uses. For `TemplateGenerator.py:62` that is the split at non-letters.
  For `BuildTarget.py:40` it is a findall with a lookbehind and a lookahead.
- `ListCreator.CreateDictionaryFromFile` returns a `map`, which has no
  order. The Python dict it models keeps insertion order. No modelled
  caller iterates over the registry, so nothing depends on that order.
- `Upper` handles ASCII letters only. Python's Unicode case mapping is not
  modelled.
- Hardware is not modelled.
  - Registers are plain bv32 fields.
  - A register the hardware changes during a wait is an oracle of
    successive reads.
  - Interrupt timing, concurrency and `volatile` semantics are not
    modelled.
- `HalClocks.Clocks.Enable`, `Disable` and `SetSysClockSource` discard the
  wait's timeout result, as the code does.
  - The `hardware` oracle feeds only the wait loop. The RCC registers the
    model keeps are written by the driver alone.
  - So after `Enable` or `Disable` the ready bits keep their old value.
    `EnableLeavesReadyBit` states this.
  - As a consequence, `Enable(HSE)` followed by `SetSysClockSource(HSE)`
    changes nothing in the model when HSERDY was clear before. On the chip,
    the switch happens once HSERDY rises.
- `HalClocks.Clocks.IsRunning`, `GetSysClockSource` and
  `GetSysClockFrequency` are functions without contracts of their own.
  Their meaning is stated by the lemmas about `IsRunningIn` and
  `SysClockSourceOf`.
- `Bits.SetBit` and `Bits.SetBits` are functions that return the new value.
  The source updates its argument by reference. `Hal_Gpio.cpp:133,185`
  assign the result of these `void` functions; that is modelled as the
  evident in-place update.
- Calls with an already-shifted mask use the masked forms `Bits.SetMasked`
  and `Bits.CompareMasked`. These calls are `Hal_Clocks.cpp:209-219` and
  `Hal_Internal.cpp:92`, and they do not match the four-argument
  definitions in `Utils_Bit.hpp`.
- `HalGpio.Gpio.SetConfiguration`: the driver test also expects the port
  clock to be enabled in RCC AHB1ENR. The code does not do this, and the
  model follows the code.
- `Utils_Assert` is not modelled. The GPIO pin bound (number ≤ 15) and the
  mapped ports a–g are preconditions instead of an assert failure.
- The scheduler's source file holds only constructors whose signatures do
  not match the header, so its behaviour comes from the header and its
  unit tests.
  - Ticks, loop passes and the SysTick interrupt are sequential method
    calls.
  - Handlers, sleep, wake-up and system errors are ghost traces.
  - `AschScheduler.Scheduler.PushEvent` reports BufferOverflow on a full
    event queue. The tests never fill the queue, so this is a modelling
    choice based on the `SysError` enum (`ASch_System.hpp:49-51`).
  - The message-listener API (`RegisterMessageListener` and the rest) has
    no tests and is not modelled.
  - `AschScheduler.IsDue` counts intervals in ticks, not milliseconds.
    The tick interval goes only to the SysTick set-up, which is not
    modelled. Ticks equal milliseconds only for the 1 ms tick that both
    configurations and every scheduler test use. Under another tick
    length, `DueIffIsDue` and `RunsEveryNthTick` give the period in ticks.
  - `AschScheduler.IsDue` never makes a task with interval 0 due. Neither
    the header nor the tests say what such a task does, and the modulo by
    zero it would need has no defined result.
  - The tests expect the scheduler to disable and re-enable interrupts
    globally around `CreateTask` and `PushEvent`. They also expect the
    constructor to set up the SysTick and the ISR handler. None of these
    calls into the hardware layer is modelled.
- Integer widths: `uint8_t` task counts and queue indices, and the
  `uint16_t` intervals.
  - Task counts and queue indices are bounded by preconditions and
    invariants. Task and tick intervals have the type
    `AschScheduler.Interval`, which holds values below 65536.
  - Wrap-around is modelled explicitly only in the rollover functions and
    the queue counters.
- `Scripts/PllCalculator.py` (a floating-point search) is not modelled.
- The SysTick and System HAL stubs are not modelled.
- The mocks and the unit tests are not modelled. Test expectations appear
  only as lemmas.
- The clock API exercised by `UTest_Hal_Clocks.cpp` is not modelled,
  because the code does not have it.
- `ASch_System.cpp` and `ASch_Main.cpp` are not modelled. They call
  configuration function pointers and loop forever.
- `ASch_Queue.hpp` has no method bodies, so the queue comes from
  `Utils_Queue.hpp`.
- `HalIsr.ClearHandlersAsWritten` and `HalIsrLegacy.ClearHandlersAsWritten`
  take the uninitialised counter's value as a parameter below 256. In C++
  reading it is undefined behaviour, which no model can capture exactly.

## Findings

| source | as written | input that shows it | evidently intended | confidence | as-written member | corrected member |
|---|---|---|---|---|---|---|
| Hal_STM32F429ZI/sources/Hal_Isr.cpp:68 | the zeroing loop's counter `i` is never initialised | a counter that happens to hold 106 (the table size) when a handler was set through an earlier `Isr`: the loop body never runs and the stale handler stays | every entry of the static table is set to 0 | not executed | HalIsr.ClearHandlersAsWritten, HalIsr.AsWrittenKeepsStaleHandler | HalIsr.Isr.constructor |
| Hal/sources/Hal_Isr.cpp:64 | the same uninitialised counter in the older per-instance table | a counter holding 1: the SysTick entry keeps whatever the fresh array held | both vectors start at 0 | not executed | HalIsrLegacy.ClearHandlersAsWritten, HalIsrLegacy.AsWrittenLeavesGarbage | HalIsrLegacy.Isr.constructor |
| Scripts/TemplateGenerator.py:139 | the header-existence check is skipped for halMode "sources" instead of "source" | `--hal=source` with the header already present asks for "YES" although the header is not written; `--hal=sources` with the header present writes it without asking | ask for "YES" iff a file the mode will write already exists | not executed | TemplateGenerator.OverwriteGateAsWritten, TemplateGenerator.AsWrittenGateChecksUnwrittenHeader, TemplateGenerator.AsWrittenGateSkipsHeader | TemplateGenerator.OverwriteGate, TemplateGenerator.OverwriteGateIffTargetExists |
| site_scons/BuildTarget.py:40 | the `.` in `(?=.cpp)` is not escaped, so it matches any character | "./Utils/cppHelpers.cpp" gives the object name "Utils" instead of "cppHelpers" | the file name without its ".cpp" extension | not executed | BuildTarget.ObjectNameAsWritten, BuildTarget.ObjectNameAsWrittenTakesDirectory, BuildTarget.ObjectNameAsWrittenExample | BuildTarget.ObjectName, BuildTarget.ObjectNameOfPath, BuildTarget.ObjectNameExample |
| site_scons/BuildTarget.py:19 | `sys.exit(1)` is called but `sys` is never imported | a build-files map without a "sources" entry raises NameError instead of exiting with status 1 | exit with status 1 after printing the error | not executed | BuildTarget.BuiltAsWritten, BuildTarget.AsWrittenReadFailureRaisesNameError | BuildTarget.Built, BuildTarget.ReadFailureExits |
