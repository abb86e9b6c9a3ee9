# Zircon PCI interrupt dispatcher, modelled in Dafny

This project models the kernel object a user-mode PCI driver waits on for a
device interrupt in the Zircon kernel. It has two layers.

- **The generic interrupt dispatcher.** A 64-bit pending-signal word
  `signals_` is shared between interrupt context and one waiting thread.
  Interrupt context ORs slot bits into the word (`Signal`). The waiting
  thread takes the whole word with one atomic exchange (`Wait`). When the
  word is empty, the thread sleeps on an auto-unsignalling kernel event
  `event_`. `Cancel` raises the reserved `ZX_INTERRUPT_CANCEL` bit, so the
  next Wait returns `ZX_ERR_CANCELED`.
- **The PCI binding.** `Create` builds a dispatcher for one vector of a
  `PcieDevice` and installs `IrqThunk` as that vector's handler in slot
  `IRQ_SLOT`. `IrqThunk` runs in interrupt context. It records the time of
  the first fire since the last wait, signals the slot and asks the bus to
  mask the vector. `PreWait` unmasks the vector again (when it is maskable)
  and clears the timestamps. The destructor removes the handler before it
  drops the device reference.

## Files

`zx_types.dfy` (module `ZxTypes`) holds the shared vocabulary:
- the signal word, as the set of its 1-bits;
- the cancellation bit;
- rights and status codes.

`interrupt_core.dfy` (module `InterruptCore`) holds the generic dispatcher:
- the event;
- the atomic steps of Wait and Signal;
- `WaitAlone`, a whole Wait call with nothing running beside it;
- a transition system (`Step`/`Run`) in which interrupt-context signals
  interleave with the waiting thread's atomic steps. A Signal is two steps
  there, its `fetch_or` and its event signal, and other steps may run
  between them.

The ordering guarantees are proved over every interleaving of that
transition system.

`pci_interrupt.dfy` (module `PciInterrupt`) holds:
- the dispatcher object as a class, `PciInterruptDispatcher`. Its mutable
  fields are `signals`, `event`, `interrupts`, `device` and `registered`,
  plus two ghost fields that record where in the device's call log the last
  Cancel fell (`cancelAt`) and where the device reference was dropped
  (`releasedAt`). `irqId`, `maskable` and `canary` are `const`.
- its methods. Wait, Signal, Cancel and IrqThunk are proved against the
  functions of `InterruptCore`. Create, AddSlot, PreWait, OnZeroHandles
  and the destructor state their effect on the object's fields and on the
  device's call log.
- the PCIe device, seen through the ghost log of the calls it receives.

## Model

| member | source | states |
|---|---|---|
| InterruptCore.EventSignal | kernel/object/interrupt_dispatcher.cpp:33-36 | Signalling the auto-unsignal event wakes at most one thread. It wakes one exactly when the event is unsignalled and a thread is parked. Otherwise it leaves the ready mark set, so a signal is never dropped. It keeps "ready implies nobody parked". |
| InterruptCore.EventWait | kernel/object/interrupt_dispatcher.cpp:26 | The event wait passes exactly when the event was ready, and it consumes the mark. Otherwise the caller is counted as parked. Either way the event is left unsignalled and consistent. |
| InterruptCore.Take | kernel/object/interrupt_dispatcher.cpp:15-19 | The exchange always leaves the word 0 and does not touch the event. It reports cancellation exactly when the cancel bit was pending, and "nothing" exactly when the word was 0. Otherwise it hands over the whole word unchanged. |
| InterruptCore.EventRelease | kernel/object/interrupt_dispatcher.cpp:26-29 | A parked thread whose wait fails leaves the event: one waiter fewer, and the ready mark is untouched. |
| ZxTypes.CancelMask | kernel/object/interrupt_dispatcher.cpp:39 | SIGNAL_MASK(ZX_INTERRUPT_CANCEL) has the cancel bit and no other bit. |
| InterruptCore.SignalCore | kernel/object/interrupt_dispatcher.cpp:33-36 | Signal ORs the mask into the word. It wakes at most one thread, and exactly one when the event is unsignalled and a thread is parked. Afterwards the event is ready or a thread was woken. |
| InterruptCore.WaitAlone | kernel/object/interrupt_dispatcher.cpp:13-31 | A Wait with nothing beside it always leaves the word 0. A pending cancel bit gives Canceled. Other pending bits are delivered exactly, with no PreWait. An empty word leads to PreWait and the event wait: one round normally, two when a stale ready mark was consumed. The thread then parks. |
| InterruptCore.Step | kernel/object/interrupt_dispatcher.cpp:13-40 | One atomic step of either context. Wait's exchange, its event wait and a failed wait each move the waiting thread. A Signal is either its `fetch_or` or its event signal, with the whole Signal as one step as a shorthand. At most one report comes out, never `Blocked`, and only when the thread leaves Wait. A `fetch_or` or a whole Signal ORs exactly its mask into the word. |
| InterruptCore.Run | kernel/object/interrupt_dispatcher.cpp:13-40 | A trace of steps in order. It yields at most one report per step, and no report is ever `Blocked`. |
| InterruptCore.FireIsOrInThenNotify | kernel/object/interrupt_dispatcher.cpp:33-36 | A Signal whose `fetch_or` and event signal run back to back has the same effect as the one-step Signal. |
| InterruptCore.InitInv | kernel/object/interrupt_dispatcher.cpp:9-11 | A new dispatcher has no pending bit and an unsignalled event, and it satisfies the ordering invariant. |
| InterruptCore.RunKeepsInv | kernel/object/interrupt_dispatcher.cpp:13-36 | The ordering invariant holds after every interleaving of Signals with the waiting thread's steps. |
| InterruptCore.NoLostWakeup | kernel/object/interrupt_dispatcher.cpp:14-36 | In every state reachable from a new dispatcher, a waiter parked with a bit pending is owed an event signal by a Signal still under way, and that event signal wakes it. A bit pending between the empty exchange and the event wait has left the event ready, or such a Signal is under way. |
| InterruptCore.SplitSignalReachesWaiter | kernel/object/interrupt_dispatcher.cpp:13-36 | In the schedule `[OrIn(m), Advance, Advance, Notify, Advance, Advance]` from any point of a Wait call, the waiting thread runs two steps between a Signal's `fetch_or` and its event signal, and nothing else interleaves. That Wait call still reports the bits. It takes them at once, or parks and is woken by the event signal. A failed wait (`Abort`) inside that gap would return the failure instead, leaving the bits for the next call. |
| InterruptCore.SignalInWindowIsSeen | kernel/object/interrupt_dispatcher.cpp:15-26 | A Signal between the empty exchange and the event wait makes the event wait pass, and the next exchange reports the signalled bits. |
| InterruptCore.SignalReachesWaiter | kernel/object/interrupt_dispatcher.cpp:13-36 | A Signal at any point of a Wait call is reported by that call within two more steps, and it leaves nothing pending. A delivered word never carries the cancel bit. |
| InterruptCore.FiresAccumulate | kernel/object/interrupt_dispatcher.cpp:33-35 | Signals while no thread is parked accumulate by OR into the pending word, wake nobody and report nothing. |
| InterruptCore.Coalesce | kernel/object/interrupt_dispatcher.cpp:34 | Repeating the same mask n > 0 times ORs to that mask. |
| InterruptCore.OrAllHasBit | kernel/object/interrupt_dispatcher.cpp:34 | An accumulated word has a bit exactly when one of the signalled masks has it. |
| InterruptCore.ExactDelivery | kernel/object/interrupt_dispatcher.cpp:15-22 | The next Wait reports one of three things. If a cancel was among the signals since the last Wait, it reports Canceled. Otherwise, if anything was signalled, it reports exactly the OR of those masks. Otherwise it reports nothing yet. |
| InterruptCore.RepeatedFiresCoalesce | kernel/object/interrupt_dispatcher.cpp:15-22 | A slot fired n > 0 times before a Wait is reported once, as that slot's single bit. |
| InterruptCore.CancelReleasesWaiter | kernel/object/interrupt_dispatcher.cpp:38-40 | A Cancel during a Wait call makes that call report Canceled, including a parked call. It leaves nothing pending. |
| InterruptCore.NoCancelWithoutCancel | kernel/object/interrupt_dispatcher.cpp:15-18 | Without a Signal (whole or as its `fetch_or`) of the cancel bit, no Wait reports Canceled and the cancel bit never becomes pending. |
| InterruptCore.CancelIsOneShot | kernel/object/interrupt_dispatcher.cpp:15-18 | A Cancel is reported once, by the Wait it interrupts. No later Wait reports Canceled unless Cancel is raised again, because the exchange clears the cancel bit. |
| InterruptCore.FailuresComeFromEventWait | kernel/object/interrupt_dispatcher.cpp:26-29 | Wait fails with a status only when the event wait handed back that status. It is never OK and never CANCELED, so a failure cannot pass for a cancellation. |
| InterruptCore.WaitAloneMatchesSteps | kernel/object/interrupt_dispatcher.cpp:13-31 | `WaitAlone` agrees with the waiting thread's atomic steps when nothing interleaves: same final state, and the same report or the same parked thread. |
| ZxTypes.SignalMask | kernel/object/pci_interrupt_dispatcher.cpp:44 | SIGNAL_MASK(i) is the word whose only bit is i. |
| PciInterrupt.Stamp | kernel/object/pci_interrupt_dispatcher.cpp:35-38 | One fire leaves the recorded time or takes the current time. The result is unset only when both were. |
| PciInterrupt.StampAll | kernel/object/pci_interrupt_dispatcher.cpp:35-38 | After a series of fires, the slot's time is the one it had before or one of the fire times. |
| PciInterrupt.FirstFireWins | kernel/object/pci_interrupt_dispatcher.cpp:35-38 | After the timestamps are reset, any number of fires leave the first non-zero fire time in the slot. |
| PciInterrupt.RecordedStampSticks | kernel/object/pci_interrupt_dispatcher.cpp:35-38 | Once a timestamp is recorded, no later fire changes it. |
| PciInterrupt.ClearTimestamps | kernel/object/pci_interrupt_dispatcher.cpp:119-122 | Every entry of the slot table gets timestamp 0. Its slot and vector are kept, and so is the table's length. |
| PciInterrupt.PciInterruptDispatcher.constructor | kernel/object/include/object/pci_interrupt_dispatcher.h:46-54 | `irq_id_` and `maskable_` are fixed here for the object's lifetime, and the canary is set. The base part starts with no pending bit and an unsignalled event. There is no device and no slot. |
| PciInterrupt.PciInterruptDispatcher.Create | kernel/object/pci_interrupt_dispatcher.cpp:51-92 | The checks run in order, each failure returning before the next check. A null device or null out-pointer gives INVALID_ARGS. An invalid vector gives INTERNAL. A failed allocation gives NO_MEMORY. A failing AddSlot has its status passed on, and the new object keeps no device reference. A failed Create returns no rights and no handle and makes no bus call. Create succeeds exactly when every step does. Then it installs the handler, unmasks the vector if it is maskable, and returns the default rights. |
| PciInterrupt.PciInterruptDispatcher.AddSlot | kernel/object/pci_interrupt_dispatcher.cpp:77-81 | On success the slot joins the table with no timestamp and its handler is installed. On failure nothing changes. |
| PciInterrupt.PciInterruptDispatcher.RegisterInterruptHandler | kernel/object/pci_interrupt_dispatcher.cpp:135-137 | Installs the thunk for the vector in the device. |
| PciInterrupt.PciInterruptDispatcher.UnregisterInterruptHandler | kernel/object/pci_interrupt_dispatcher.cpp:139-141 | Removes the vector's handler from the device. |
| PciInterrupt.PciInterruptDispatcher.Bind | kernel/object/pci_interrupt_dispatcher.cpp:94-99 | Bind always returns NOT_SUPPORTED. |
| PciInterrupt.PciInterruptDispatcher.PostWait | kernel/object/pci_interrupt_dispatcher.cpp:125-127 | Changes nothing. |
| PciInterrupt.PciInterruptDispatcher.MaskInterrupt | kernel/object/pci_interrupt_dispatcher.cpp:129-130 | Changes nothing. |
| PciInterrupt.PciInterruptDispatcher.UnmaskInterrupt | kernel/object/pci_interrupt_dispatcher.cpp:132-133 | Changes nothing. |
| PciInterrupt.PciInterruptDispatcher.PreWait | kernel/object/pci_interrupt_dispatcher.cpp:114-123 | Unmasks the vector exactly when it is maskable, and makes no other bus call. It clears every slot's timestamp and changes nothing else in the table. It keeps the object invariant. |
| PciInterrupt.PciInterruptDispatcher.Signal | kernel/object/interrupt_dispatcher.cpp:33-36 | The object's word and event move as `SignalCore` says, and the returned count is the number of threads woken. |
| PciInterrupt.PciInterruptDispatcher.Cancel | kernel/object/interrupt_dispatcher.cpp:38-40 | Cancel is Signal of the cancel bit. The ghost field `cancelAt` records where in the device's call log it was raised. |
| PciInterrupt.PciInterruptDispatcher.Wait | kernel/object/interrupt_dispatcher.cpp:13-31 | The loop ends in the state and with the outcome of `WaitAlone`. It runs the PreWait hook once per round that found the word empty: timestamps cleared, and one unmask each round when maskable. |
| PciInterrupt.PciInterruptDispatcher.ParkedWaitFails | kernel/object/interrupt_dispatcher.cpp:26-29 | A parked wait that ends with a status other than OK and CANCELED returns that status, and the thread stops counting as parked. |
| PciInterrupt.PciInterruptDispatcher.WaitForInterrupt | kernel/object/pci_interrupt_dispatcher.cpp:101-105 | With the canary intact, this is Wait. |
| PciInterrupt.PciInterruptDispatcher.IrqThunk | kernel/object/pci_interrupt_dispatcher.cpp:29-49 | Only the first fire since the last reset stamps the slot, and nothing else in the table changes. The slot's bit is signalled. The vector is always masked, with a reschedule request exactly when a parked thread was woken. |
| PciInterrupt.PciInterruptDispatcher.OnZeroHandles | kernel/object/pci_interrupt_dispatcher.cpp:107-112 | Masks the vector only when it is maskable and makes no other bus call. It then Cancels: the Cancel is raised after every bus call, one call after the entry when the vector is maskable. |
| PciInterrupt.PciInterruptDispatcher.Destroy | kernel/object/pci_interrupt_dispatcher.cpp:17-27 | When a device is held, the handler is removed (the call succeeds) and only then is the reference dropped: `releasedAt` falls one call after the entry, after the removal. Afterwards there is no device and no installed handler. Without a device, nothing changes. |

## Left out

- Atomics and memory ordering. `exchange`, `fetch_or`, `event_wait_deadline` and `event_signal_etc` are each one atomic step under sequential consistency. The invariant `Inv`, and with it `NoLostWakeup`, relies on this granularity, and on the event's own lock making each event call indivisible.
- More than one waiting thread. The interleaving model has one consumer. Several waiters contending for the exchange are not modelled.
- Blocking. Wait is modelled up to the point where the thread parks (`Blocked`). A woken thread carries on by entering Wait's loop again, in `Step` and by calling Wait again on the class.
- The `resched` flag of Signal. It only affects scheduling, so it has no effect in the model. The default value IrqThunk passes comes from a header that is not part of this model.
- Reference counting (`fbl::RefPtr`, `AdoptRef`, the move into `out_interrupt`). The device reference is a nullable field, and the handle is the returned object.
- The device's handler table and the `ctx` pointer. IrqThunk receives the index of its slot record instead.
- The bus driver (`PcieDevice`), modelled only by the calls it receives. Removing a handler always succeeds, as the destructor asserts. Installing one also succeeds in the model. A failed install would surface as AddSlot's status, which is already a free parameter (`outcome`).
- The bus layer's reaction to IrqThunk's result. Masking the vector on PCIE_IRQRET_MASK is done by the bus driver, so it is not in the device's call log. IrqThunk's contract states the result it hands back.
- PciInterrupt.PciInterruptDispatcher.IrqThunk: the slot's timestamp write and PreWait's reset interleave only at method granularity. `Step` interleaves the signal half of IrqThunk with Wait's steps, but not its stamp. In the source, a fire that lands between Wait's empty exchange and PreWait has its stamp zeroed by PreWait. The next exchange then delivers that fire's bit with timestamp 0, or with the time of a later fire. The model does not reach that state, so `FirstFireWins` speaks only of fires after the reset.
- Event-wait statuses. A failed event wait is taken to return neither ZX_OK nor ZX_ERR_CANCELED, and `ErrOther` stands for codes other than those named. So ZX_ERR_CANCELED from Wait always means a Cancel.
- `is_valid_interrupt`, the allocator's verdict, `current_time()` and AddSlot's outcome. These are parameters, because their code is not part of this model.
- PciInterrupt.PciInterruptDispatcher.AddSlot: the base class's AddSlot is not part of this model. Its checks (slot range, duplicates) are replaced by the `outcome` parameter.
- The numeric values of `ZX_INTERRUPT_CANCEL` and `ZX_DEFAULT_PCI_INTERRUPT_RIGHTS`. They are left abstract, since their headers are not part of this model. The model relies only on the cancel bit being a bit other than slot 0.
- The canary. `fbl::magic("INPD")` is taken to put 'I' in the most significant byte, since fbl/canary.h is not part of this model. `canary_.Assert()` appears as the `Valid()` precondition.
- The `WITH_DEV_PCIE` build switch, and the private access of the constructor. Dafny has no build switches or private constructors.
