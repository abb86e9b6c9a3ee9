/**
  Kernel vocabulary shared by the interrupt dispatcher and its PCI binding:
  the 64-bit pending-signal word, the per-slot signal bits, the reserved
  cancellation bit, and the status codes the dispatcher returns.
 */
module ZxTypes {

  /** A bit position of a uint64_t signal word. */
  type BitIndex = i: nat | i < 64

  /**
    A uint64_t signal word, as the set of its bit positions that are 1:
    one bit per slot plus the cancellation bit. Bitwise OR is union, AND is
    intersection and the word 0 is the empty set.
   */
  type Word = set<BitIndex>

  /** The range of the cancellation bit: any bit of the word except slot 0's. */
  type CancelIndex = i: nat | 0 < i < 64 witness 63

  /**
    ZX_INTERRUPT_CANCEL, the bit index that Cancel raises. Its value lives in a
    header that is not part of this model, so it is left abstract: all that is
    relied on is that it is a valid bit index and not slot 0.
   */
  const ZX_INTERRUPT_CANCEL: CancelIndex

  /** Capability rights attached to a handle (zx_rights_t). */
  type Rights = bv32

  /**
    ZX_DEFAULT_PCI_INTERRUPT_RIGHTS: the rights granted by a successful
    Create. The exact bits are a policy of the handle framework; left abstract.
   */
  const ZX_DEFAULT_PCI_INTERRUPT_RIGHTS: Rights

  /** SIGNAL_MASK(i): the word with only bit i set. */
  function SignalMask(i: BitIndex): (m: Word)
    ensures i in m && |m| == 1
  {
    {i}
  }

  /** The mask of the cancellation bit. */
  function CancelMask(): (m: Word)
    ensures ZX_INTERRUPT_CANCEL in m && |m| == 1
    ensures forall i: BitIndex :: i != ZX_INTERRUPT_CANCEL ==> i !in m
  {
    SignalMask(ZX_INTERRUPT_CANCEL)
  }

  /** A value an out-parameter received, or None when the call wrote nothing there. */
  datatype Option<T> = None | Some(value: T)

  /** Status codes (zx_status_t) that this part of the kernel produces or passes on. */
  datatype Status =
    | Ok              // ZX_OK
    | ErrInternal     // ZX_ERR_INTERNAL
    | ErrNotSupported // ZX_ERR_NOT_SUPPORTED
    | ErrNoMemory     // ZX_ERR_NO_MEMORY
    | ErrInvalidArgs  // ZX_ERR_INVALID_ARGS
    | ErrCanceled     // ZX_ERR_CANCELED
    | ErrOther(code: int) // any status other than those named above, passed through unchanged
}
