/**
  The PCI binding of the interrupt dispatcher
  (kernel/object/pci_interrupt_dispatcher.cpp and its header).

  A Dafny class cannot inherit, so `PciInterruptDispatcher` below is the
  whole C++ object: the fields of the InterruptDispatcher base class
  (`signals_`, `event_`, the `interrupts_` table) next to the fields of the
  PCI subclass (`canary_`, `irq_id_`, `maskable_`, `device_`). The base
  class's Wait, Signal, Cancel and AddSlot therefore appear as methods of
  this class; Wait, Signal and Cancel, and IrqThunk, which signals, are
  proved against the functions of InterruptCore.

  The bus device (PcieDevice) is external; it is modelled by the calls it
  receives, kept in a ghost log.
 */
module PciInterrupt {
  import opened ZxTypes
  import opened InterruptCore

  /** uint32_t */
  type U32 = x: nat | x < 0x1_0000_0000

  /** A slot's signal bit: any bit but the cancellation bit. */
  type SlotIndex = i: BitIndex | i != ZX_INTERRUPT_CANCEL witness 0

  /** IRQ_SLOT: the one slot a PCI interrupt object uses. */
  const IRQ_SLOT: SlotIndex := 0

  /**
    The canary tag fbl::magic("INPD"): the four ASCII bytes of "INPD", the
    first in the most significant byte (fbl/canary.h is not part of this model).
   */
  const INPD_MAGIC: bv32 := 0x494E5044

  // ---------------------------------------------------------------------------
  // The bus layer, seen through the calls it receives
  // ---------------------------------------------------------------------------

  /** A call into the PCIe device's interrupt API. */
  datatype BusCall =
    | Installed(vector: U32)  // RegisterIrqHandler(vector, IrqThunk, ctx)
    | Removed(vector: U32)    // RegisterIrqHandler(vector, nullptr, nullptr)
    | Masked(vector: U32)     // MaskIrq(vector)
    | Unmasked(vector: U32)   // UnmaskIrq(vector)

  /** The result IrqThunk hands back to the bus layer (pcie_irq_handler_retval_t). */
  datatype IrqReturn =
    | Mask            // PCIE_IRQRET_MASK
    | MaskAndResched  // PCIE_IRQRET_MASK_AND_RESCHED

  /** The PCIe device, as far as this binding uses it: a log of the calls it received. */
  class PcieDevice {
    ghost var calls: seq<BusCall>

    constructor ()
      ensures calls == []
    {
      calls := [];
    }

    /** Installs (install) or removes the handler of a vector; both succeed in this model. */
    method RegisterIrqHandler(vector: U32, install: bool) returns (st: Status)
      modifies this
      ensures st == Ok
      ensures calls == old(calls) + [if install then Installed(vector) else Removed(vector)]
    {
      calls := calls + [if install then Installed(vector) else Removed(vector)];
      st := Ok;
    }

    method MaskIrq(vector: U32)
      modifies this
      ensures calls == old(calls) + [Masked(vector)]
    {
      calls := calls + [Masked(vector)];
    }

    method UnmaskIrq(vector: U32)
      modifies this
      ensures calls == old(calls) + [Unmasked(vector)]
    {
      calls := calls + [Unmasked(vector)];
    }
  }

  // ---------------------------------------------------------------------------
  // The slot table and its timestamps
  // ---------------------------------------------------------------------------

  /** One entry of `interrupts_`: its slot, its vector, and the first-fire time (0 means unset). */
  datatype Interrupt = Interrupt(slot: SlotIndex, vector: U32, timestamp: int)

  /** IrqThunk's timestamp rule: a fire records the time only if none is recorded yet. */
  function Stamp(timestamp: int, now: int): (r: int)
    ensures r == timestamp || r == now
    ensures r != 0 <==> timestamp != 0 || now != 0
  {
    if timestamp == 0 then now else timestamp
  }

  /** The timestamp after a slot fires at each of the given times in order. */
  function StampAll(timestamp: int, times: seq<int>): (r: int)
    ensures r == timestamp || r in times
    decreases |times|
  {
    if times == [] then timestamp else StampAll(Stamp(timestamp, times[0]), times[1..])
  }

  /** The first non-zero entry of a sequence of times, or 0 if there is none. */
  function FirstNonZero(times: seq<int>): (r: int)
    ensures r == 0 <==> forall k :: 0 <= k < |times| ==> times[k] == 0
    ensures r != 0 ==> r in times
    decreases |times|
  {
    if times == [] then 0
    else if times[0] != 0 then times[0]
    else FirstNonZero(times[1..])
  }

  /** Once a timestamp is recorded, later fires leave it alone. */
  lemma {:induction false} RecordedStampSticks(timestamp: int, times: seq<int>)
    requires timestamp != 0
    ensures StampAll(timestamp, times) == timestamp
    decreases |times|
  {
    if times != [] {
      RecordedStampSticks(timestamp, times[1..]);
    }
  }

  /**
    Coalesced fires keep the time of the first one: after a reset, any
    number of fires leave the slot's timestamp at the first (non-zero) time.
   */
  lemma {:induction false} FirstFireWins(times: seq<int>)
    ensures StampAll(0, times) == FirstNonZero(times)
    decreases |times|
  {
    if times != [] {
      if times[0] != 0 {
        RecordedStampSticks(times[0], times[1..]);
      } else {
        FirstFireWins(times[1..]);
      }
    }
  }

  /** The table after PreWait: every slot's timestamp back to unset, nothing else changed. */
  function ClearTimestamps(table: seq<Interrupt>): (r: seq<Interrupt>)
    ensures |r| == |table|
    ensures forall k :: 0 <= k < |table| ==>
              r[k].timestamp == 0 && r[k].slot == table[k].slot && r[k].vector == table[k].vector
  {
    seq(|table|, k requires 0 <= k < |table| => table[k].(timestamp := 0))
  }

  /** Clearing the timestamps twice is clearing them once. */
  lemma ClearTimestampsIdempotent(table: seq<Interrupt>)
    ensures ClearTimestamps(ClearTimestamps(table)) == ClearTimestamps(table)
  {
  }

  /** n copies of a bus call. */
  function Repeat(call: BusCall, n: nat): (r: seq<BusCall>)
    ensures |r| == n && forall k :: 0 <= k < n ==> r[k] == call
  {
    seq(n, _ => call)
  }

  // ---------------------------------------------------------------------------
  // The dispatcher object
  // ---------------------------------------------------------------------------

  class PciInterruptDispatcher {
    // InterruptDispatcher state
    var signals: Word                // signals_
    var event: Event                 // event_
    var interrupts: seq<Interrupt>   // interrupts_
    // PciInterruptDispatcher state
    const canary: bv32               // canary_
    const irqId: U32                 // irq_id_
    const maskable: bool             // maskable_
    var device: PcieDevice?          // device_
    /** Whether this object's handler is installed in the device's handler table. */
    var registered: bool
    /**
      Where the last Cancel falls among the bus calls: the length of the
      device's call log when it was raised (0 without a device), or -1 if
      Cancel has not been raised.
     */
    ghost var cancelAt: int
    /**
      Where the device reference was dropped among the bus calls: the length
      of the device's call log at that moment, or -1 while it has not been.
     */
    ghost var releasedAt: int

    /** canary_.Assert() passes. */
    predicate CanaryOk()
      reads this
    {
      canary == INPD_MAGIC
    }

    /**
      The object invariant: the canary is intact, the event is consistent, and
      a handler is installed only while the device reference is held.
     */
    ghost predicate Valid()
      reads this
    {
      && CanaryOk()
      && EventValid(event)
      && (registered ==> device != null)
    }

    /** The state the two contexts share. */
    function CoreOf(): Core
      reads this
    {
      Core(signals, event)
    }

    /**
      The private constructor together with the base-class constructor:
      `irq_id_` and `maskable_` are fixed here for the object's lifetime, no
      signal is pending, the event is unsignalled, and there is no device yet.
     */
    constructor (irqId: U32, maskable: bool)
      ensures Valid()
      ensures this.irqId == irqId && this.maskable == maskable
      ensures CoreOf() == NEW_CORE
      ensures interrupts == [] && device == null && !registered
      ensures cancelAt == -1 && releasedAt == -1
    {
      this.irqId := irqId;
      this.maskable := maskable;
      canary := INPD_MAGIC;
      signals := {};
      event := Event(false, 0);
      interrupts := [];
      device := null;
      registered := false;
      cancelAt := -1;
      releasedAt := -1;
    }

    /**
      Create: checks its arguments in order (a null device or output pointer,
      then an invalid vector), allocates, takes the device reference and adds
      the one slot; if that fails the device reference is dropped again and
      the status is passed on. On success the vector is unmasked if it is
      maskable. The bus layer's validity verdict, the allocator's outcome and
      AddSlot's outcome are parameters; `attempt` is the object allocated, if any.
     */
    static method Create(device: PcieDevice?, irqId: U32, maskable: bool,
                         outRightsPresent: bool, outInterruptPresent: bool,
                         validInterrupt: bool, allocSucceeds: bool, addSlotOutcome: Status)
      returns (status: Status, outRights: Option<Rights>, outInterrupt: PciInterruptDispatcher?,
               ghost attempt: PciInterruptDispatcher?)
      modifies device
      ensures device == null || !outRightsPresent || !outInterruptPresent ==>
                status == ErrInvalidArgs && attempt == null
      ensures device != null && outRightsPresent && outInterruptPresent && !validInterrupt ==>
                status == ErrInternal && attempt == null
      ensures device != null && outRightsPresent && outInterruptPresent && validInterrupt && !allocSucceeds ==>
                status == ErrNoMemory && attempt == null
      ensures status != Ok ==> outRights == None && outInterrupt == null
      ensures status != Ok && device != null ==> device.calls == old(device.calls)
      ensures attempt != null ==>
                && fresh(attempt) && attempt.Valid()
                && attempt.irqId == irqId && attempt.maskable == maskable
                && attempt.CoreOf() == NEW_CORE
      ensures attempt != null && addSlotOutcome != Ok ==>
                status == addSlotOutcome && attempt.device == null && !attempt.registered
      ensures status == Ok <==>
                device != null && outRightsPresent && outInterruptPresent && validInterrupt &&
                allocSucceeds && addSlotOutcome == Ok
      ensures status == Ok ==>
                && outInterrupt == attempt && attempt != null
                && outRights == Some(ZX_DEFAULT_PCI_INTERRUPT_RIGHTS)
                && attempt.device == device && attempt.registered
                && attempt.interrupts == [Interrupt(IRQ_SLOT, irqId, 0)]
                && device.calls == old(device.calls) + [Installed(irqId)] +
                                   (if maskable then [Unmasked(irqId)] else [])
    {
      outRights, outInterrupt, attempt := None, null, null;
      if device == null || !outRightsPresent || !outInterruptPresent {
        return ErrInvalidArgs, outRights, outInterrupt, attempt;
      }
      if !validInterrupt {
        return ErrInternal, outRights, outInterrupt, attempt;
      }
      if !allocSucceeds {
        return ErrNoMemory, outRights, outInterrupt, attempt;
      }
      var dispatcher := new PciInterruptDispatcher(irqId, maskable);
      attempt := dispatcher;
      dispatcher.device := device;
      var result := dispatcher.AddSlot(IRQ_SLOT, irqId, 0, addSlotOutcome);
      if result != Ok {
        dispatcher.device := null;
        return result, outRights, outInterrupt, attempt;
      }
      if maskable {
        device.UnmaskIrq(irqId);
      }
      outInterrupt := dispatcher;
      outRights := Some(ZX_DEFAULT_PCI_INTERRUPT_RIGHTS);
      status := Ok;
    }

    /**
      The base class's AddSlot, whose body is not part of this model: its
      outcome is a parameter. On success the slot joins the table with an
      unset timestamp and the handler is installed through
      RegisterInterruptHandler; on failure nothing changes.
     */
    method AddSlot(slot: SlotIndex, vector: U32, options: U32, outcome: Status) returns (st: Status)
      requires Valid() && device != null
      modifies this`interrupts, this`registered, device
      ensures Valid()
      ensures st == outcome
      ensures outcome != Ok ==>
                interrupts == old(interrupts) && registered == old(registered) &&
                device.calls == old(device.calls)
      ensures outcome == Ok ==>
                && interrupts == old(interrupts) + [Interrupt(slot, vector, 0)]
                && registered
                && device.calls == old(device.calls) + [Installed(vector)]
    {
      if outcome != Ok {
        return outcome;
      }
      interrupts := interrupts + [Interrupt(slot, vector, 0)];
      st := RegisterInterruptHandler(vector);
    }

    /** RegisterInterruptHandler: installs IrqThunk for the vector in the device. */
    method RegisterInterruptHandler(vector: U32) returns (st: Status)
      requires Valid() && device != null
      modifies this`registered, device
      ensures Valid() && st == Ok && registered
      ensures device.calls == old(device.calls) + [Installed(vector)]
    {
      st := device.RegisterIrqHandler(vector, true);
      if st == Ok {
        registered := true;
      }
    }

    /** UnregisterInterruptHandler: removes the vector's handler from the device. */
    method UnregisterInterruptHandler(vector: U32)
      requires Valid() && device != null
      modifies this`registered, device
      ensures Valid() && !registered
      ensures device.calls == old(device.calls) + [Removed(vector)]
    {
      var _ := device.RegisterIrqHandler(vector, false);
      registered := false;
    }

    /** Bind: PCI interrupts are bound at creation, so an explicit bind always fails. */
    method Bind(slot: U32, vector: U32, options: U32) returns (st: Status)
      requires Valid()
      ensures st == ErrNotSupported
    {
      st := ErrNotSupported;
    }

    /** PostWait: nothing to do. */
    method PostWait(signals: Word)
      ensures unchanged(this)
    {
    }

    /** MaskInterrupt: nothing to do for PCI. */
    method MaskInterrupt(vector: U32)
      ensures unchanged(this)
    {
    }

    /** UnmaskInterrupt: nothing to do for PCI. */
    method UnmaskInterrupt(vector: U32)
      ensures unchanged(this)
    {
    }

    /**
      PreWait: re-arms the vector if it is maskable, and resets every slot's
      timestamp so that the next fire's time is recorded.
     */
    method PreWait()
      requires Valid() && (maskable ==> device != null)
      modifies this`interrupts, device
      ensures Valid()
      ensures interrupts == ClearTimestamps(old(interrupts))
      ensures maskable ==> device.calls == old(device.calls) + [Unmasked(irqId)]
      ensures !maskable && device != null ==> device.calls == old(device.calls)
    {
      if maskable {
        device.UnmaskIrq(irqId);
      }
      var i := 0;
      while i < |interrupts|
        invariant 0 <= i <= |interrupts| == |old(interrupts)|
        invariant forall k :: 0 <= k < i ==> interrupts[k] == old(interrupts)[k].(timestamp := 0)
        invariant forall k :: i <= k < |interrupts| ==> interrupts[k] == old(interrupts)[k]
        invariant maskable ==> device.calls == old(device.calls) + [Unmasked(irqId)]
        invariant !maskable && device != null ==> device.calls == old(device.calls)
      {
        interrupts := interrupts[i := interrupts[i].(timestamp := 0)];
        i := i + 1;
      }
    }

    /**
      Signal: ORs the bits into the pending word and signals the event; the
      result is the number of threads woken.
     */
    method Signal(m: Word, resched: bool) returns (woke: nat)
      requires Valid()
      modifies this`signals, this`event
      ensures Valid()
      ensures (CoreOf(), woke) == SignalCore(old(CoreOf()), m)
    {
      signals := signals + m;
      var (e, n) := EventSignal(event);
      event, woke := e, n;
    }

    /** Cancel: Signal of the cancellation bit, with a reschedule request. */
    method Cancel() returns (woke: nat)
      requires Valid()
      modifies this`signals, this`event, this`cancelAt
      ensures Valid()
      ensures (CoreOf(), woke) == SignalCore(old(CoreOf()), CancelMask())
      ensures cancelAt == if device == null then 0 else |device.calls|
    {
      woke := Signal(SignalMask(ZX_INTERRUPT_CANCEL), true);
      cancelAt := if device == null then 0 else |device.calls|;
    }

    /**
      The base class's Wait loop, without blocking: it returns what the
      source returns, or Blocked at the point where the thread would park in
      the event. A thread that a later Signal wakes carries on by calling
      Wait again (the loop restarts at the exchange).
     */
    method Wait() returns (r: WaitOutcome)
      requires Valid() && (maskable ==> device != null)
      modifies this`signals, this`event, this`interrupts, device
      ensures Valid()
      ensures var run := WaitAlone(old(CoreOf()));
              && r == run.outcome && CoreOf() == run.core
              && interrupts == (if run.preWaits > 0 then ClearTimestamps(old(interrupts)) else old(interrupts))
              && (maskable ==> device.calls == old(device.calls) + Repeat(Unmasked(irqId), run.preWaits))
              && (!maskable && device != null ==> device.calls == old(device.calls))
    {
      ghost var run := WaitAlone(CoreOf());
      ghost var done: nat := 0;
      while true
        invariant Valid()
        invariant WaitAlone(CoreOf()).outcome == run.outcome
        invariant WaitAlone(CoreOf()).core == run.core
        invariant done + WaitAlone(CoreOf()).preWaits == run.preWaits
        invariant interrupts == if done > 0 then ClearTimestamps(old(interrupts)) else old(interrupts)
        invariant maskable ==> device.calls == old(device.calls) + Repeat(Unmasked(irqId), done)
        invariant !maskable && device != null ==> device.calls == old(device.calls)
        decreases (if signals != {} then 2 else 0) + (if event.signaled then 1 else 0)
      {
        var taken := signals;
        signals := {};
        if taken != {} {
          if taken * SignalMask(ZX_INTERRUPT_CANCEL) != {} {
            return Canceled;
          }
          PostWait(taken);
          return Delivered(taken);
        }
        ghost var before := interrupts;
        PreWait();
        if done > 0 {
          ClearTimestampsIdempotent(old(interrupts));
        }
        assert Repeat(Unmasked(irqId), done) + [Unmasked(irqId)] == Repeat(Unmasked(irqId), done + 1);
        done := done + 1;
        var (e, passed) := EventWait(event);
        event := e;
        if !passed {
          return Blocked;
        }
      }
    }

    /**
      The other way out of the loop: the event wait of a parked thread
      returns a status other than ZX_OK (and, as an assumption of this model,
      other than ZX_ERR_CANCELED), and Wait returns it unchanged.
     */
    method ParkedWaitFails(status: Status) returns (r: WaitOutcome)
      requires Valid() && event.waiters > 0 && status != Ok && status != ErrCanceled
      modifies this`event
      ensures Valid()
      ensures r == Failed(status) && event == EventRelease(old(event))
    {
      event := EventRelease(event);
      r := Failed(status);
    }

    /** WaitForInterrupt: checks the canary and runs Wait. */
    method WaitForInterrupt() returns (r: WaitOutcome)
      requires Valid() && (maskable ==> device != null)
      modifies this`signals, this`event, this`interrupts, device
      ensures Valid()
      ensures var run := WaitAlone(old(CoreOf()));
              && r == run.outcome && CoreOf() == run.core
              && interrupts == (if run.preWaits > 0 then ClearTimestamps(old(interrupts)) else old(interrupts))
              && (maskable ==> device.calls == old(device.calls) + Repeat(Unmasked(irqId), run.preWaits))
              && (!maskable && device != null ==> device.calls == old(device.calls))
    {
      r := Wait();
    }

    /**
      IrqThunk, run by the bus layer in interrupt context while the handler is
      installed, for slot record k at time `now` (current_time()): the first
      fire since the last reset stamps the record, the slot's bit is
      signalled, and the bus is always told to mask the vector, with a
      reschedule request exactly when the signal woke a thread.
     */
    method IrqThunk(k: nat, now: int) returns (ret: IrqReturn)
      requires Valid() && registered && k < |interrupts|
      modifies this`signals, this`event, this`interrupts
      ensures Valid()
      ensures interrupts == old(interrupts)[k := old(interrupts[k]).(timestamp := Stamp(old(interrupts[k].timestamp), now))]
      ensures CoreOf() == SignalCore(old(CoreOf()), SignalMask(old(interrupts[k].slot))).0
      ensures ret == MaskAndResched <==> !old(event.signaled) && old(event.waiters) > 0
    {
      var interrupt := interrupts[k];
      if interrupt.timestamp == 0 {
        interrupts := interrupts[k := interrupt.(timestamp := now)];
      }
      var woke := Signal(SignalMask(interrupt.slot), false);
      if woke > 0 {
        ret := MaskAndResched;
      } else {
        ret := Mask;
      }
    }

    /**
      on_zero_handles: once the last handle is gone, masks the vector (if
      maskable) and then cancels, releasing any waiter.
     */
    method OnZeroHandles()
      requires Valid() && (maskable ==> device != null)
      modifies this`signals, this`event, this`cancelAt, device
      ensures Valid()
      ensures CoreOf() == SignalCore(old(CoreOf()), CancelMask()).0
      ensures maskable ==> device.calls == old(device.calls) + [Masked(irqId)]
      ensures !maskable && device != null ==> device.calls == old(device.calls)
      // the Cancel comes after the mask: it is raised once every bus call is made
      ensures device != null ==> cancelAt == |device.calls|
      ensures maskable ==> cancelAt == |old(device.calls)| + 1
    {
      if maskable {
        device.MaskIrq(irqId);
      }
      var _ := Cancel();
    }

    /**
      The destructor: if the device reference is held, the handler is removed
      first (this must succeed) and only then is the reference dropped.
     */
    method Destroy()
      requires Valid()
      modifies this`device, this`registered, this`releasedAt, device
      ensures Valid() && device == null && !registered
      ensures old(device) != null ==> old(device).calls == old(device.calls) + [Removed(irqId)]
      // the reference is dropped after the handler's removal, not before it
      ensures old(device) != null ==> releasedAt == |old(device.calls)| + 1
      ensures old(device) == null ==> releasedAt == old(releasedAt)
    {
      if device != null {
        var ret := device.RegisterIrqHandler(irqId, false);
        assert ret == Ok;
        registered := false;
        releasedAt := |device.calls|;
        device := null;
      }
    }
  }
}
