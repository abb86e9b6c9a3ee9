/**
  The generic interrupt dispatcher (kernel/object/interrupt_dispatcher.cpp):
  a pending-signal word `signals_` shared between interrupt context, which ORs
  bits into it, and one consumer thread, which takes the whole word at once and
  otherwise sleeps on an auto-unsignalling kernel event.

  Every atomic piece of the source is a function here (the exchange, the
  fetch-or, the event signal, the event wait); `SignalCore` is a Signal whose
  fetch-or and event signal run back to back; `WaitAlone` is a whole Wait call
  when nothing runs beside it, and `Step`/`Run` form a small transition system
  in which interrupt-context signals interleave with the consumer's steps, so
  that the ordering guarantees can be stated over every interleaving.
 */
module InterruptCore {
  import opened ZxTypes

  // ---------------------------------------------------------------------------
  // The kernel event (event_init(&event_, false, EVENT_FLAG_AUTOUNSIGNAL))
  // ---------------------------------------------------------------------------

  /**
    The auto-unsignalling event `event_`: `signaled` is its ready mark and
    `waiters` the number of threads parked in it.
   */
  datatype Event = Event(signaled: bool, waiters: nat)

  /** A thread only parks on an unsignalled event, so a ready mark means no one waits. */
  predicate EventValid(e: Event)
  {
    e.signaled ==> e.waiters == 0
  }

  /**
    event_signal_etc on an auto-unsignalling event: an already signalled event
    is left alone; otherwise one parked thread is woken and the event stays
    unsignalled, or, with nobody parked, the ready mark is set. The second
    component is the number of threads woken.
   */
  function EventSignal(e: Event): (r: (Event, nat))
    ensures r.1 <= 1
    ensures r.1 == 1 <==> !e.signaled && e.waiters > 0
    ensures r.0.waiters + r.1 == e.waiters
    // the signal is never dropped: it either runs a thread or leaves the mark
    ensures r.0.signaled <==> r.1 == 0
    ensures EventValid(e) ==> EventValid(r.0)
  {
    if e.signaled then (e, 0)
    else if e.waiters > 0 then (Event(false, e.waiters - 1), 1)
    else (Event(true, 0), 0)
  }

  /**
    event_wait_deadline(&event_, ZX_TIME_INFINITE, true) as one atomic step:
    a ready mark is consumed and the call passes (second component true);
    otherwise the calling thread parks.
   */
  function EventWait(e: Event): (r: (Event, bool))
    ensures !r.0.signaled
    ensures r.1 <==> e.signaled
    ensures r.0.waiters == if r.1 then e.waiters else e.waiters + 1
    ensures EventValid(r.0)
  {
    if e.signaled then (Event(false, e.waiters), true)
    else (Event(false, e.waiters + 1), false)
  }

  /** A parked thread leaves the event because its wait failed (it was not woken by a signal). */
  function EventRelease(e: Event): (r: Event)
    requires e.waiters > 0
    ensures r.waiters + 1 == e.waiters && r.signaled == e.signaled
  {
    Event(e.signaled, e.waiters - 1)
  }

  // ---------------------------------------------------------------------------
  // The dispatcher's shared state and its atomic operations
  // ---------------------------------------------------------------------------

  /** The state shared by both contexts: `signals_` and `event_`. */
  datatype Core = Core(signals: Word, event: Event)

  /** What the constructor establishes: no pending bit, an unsignalled event, no waiter. */
  const NEW_CORE: Core := Core({}, Event(false, 0))

  /** The three ways the word taken by one exchange is classified. */
  datatype Taken = TookCancel | TookSignals(bits: Word) | TookNothing

  /**
    One `signals_.exchange(0)` and the tests on the taken word: the word is
    left 0 whatever was taken; the cancellation bit wins over any slot bits
    taken with it; otherwise a non-zero word is handed over whole.
   */
  function Take(c: Core): (r: (Core, Taken))
    ensures r.0.signals == {} && r.0.event == c.event
    ensures r.1 == TookCancel <==> ZX_INTERRUPT_CANCEL in c.signals
    ensures r.1 == TookNothing <==> c.signals == {}
    ensures r.1.TookSignals? ==> r.1.bits == c.signals
  {
    var signals := c.signals;
    var taken :=
      if signals == {} then TookNothing
      else if signals * SignalMask(ZX_INTERRUPT_CANCEL) != {} then TookCancel
      else TookSignals(signals);
    (Core({}, c.event), taken)
  }

  /**
    Signal(signals, resched): `signals_.fetch_or(signals)` followed by
    event_signal_etc; the second component is the number of threads woken.
   */
  function SignalCore(c: Core, m: Word): (r: (Core, nat))
    ensures r.0.signals == c.signals + m
    ensures r.1 <= 1
    ensures r.1 == 1 <==> !c.event.signaled && c.event.waiters > 0
    ensures r.0.event.signaled || r.1 == 1
    ensures EventValid(c.event) ==> EventValid(r.0.event)
  {
    var (e, woke) := EventSignal(c.event);
    (Core(c.signals + m, e), woke)
  }

  /** What a Wait call reports. `Blocked` stands for "the thread is now parked in the event". */
  datatype WaitOutcome =
    | Delivered(signals: Word)  // ZX_OK with *out_signals == signals
    | Canceled                  // ZX_ERR_CANCELED
    | Blocked                   // still inside Wait, parked
    | Failed(status: Status)    // a failed event wait, returned unchanged

  /** The state after a Wait call, its outcome, and how many times it ran the PreWait hook. */
  datatype WaitRun = WaitRun(core: Core, outcome: WaitOutcome, preWaits: nat)

  /**
    One call of InterruptDispatcher::Wait with nothing running beside it, up
    to the point where it returns or parks. A non-zero pending word is
    returned at once (cancellation first); an empty one leads to PreWait and
    the event wait, and a stale ready mark makes the loop go round once more.
   */
  function WaitAlone(c: Core): (r: WaitRun)
    ensures r.core.signals == {}
    ensures ZX_INTERRUPT_CANCEL in c.signals ==> r.outcome == Canceled
    ensures c.signals != {} && ZX_INTERRUPT_CANCEL !in c.signals ==> r.outcome == Delivered(c.signals)
    ensures c.signals != {} ==> r.core.event == c.event && r.preWaits == 0
    ensures c.signals == {} ==>
              && r.outcome == Blocked
              && r.core.event == Event(false, c.event.waiters + 1)
              && r.preWaits == (if c.event.signaled then 2 else 1)
    decreases (if c.signals != {} then 2 else 0) + (if c.event.signaled then 1 else 0)
  {
    var (c1, taken) := Take(c);
    match taken
    case TookCancel => WaitRun(c1, Canceled, 0)
    case TookSignals(bits) => WaitRun(c1, Delivered(bits), 0)
    case TookNothing =>
      var (e, passed) := EventWait(c1.event);
      if passed then
        var rest := WaitAlone(Core(c1.signals, e));
        rest.(preWaits := rest.preWaits + 1)
      else
        WaitRun(Core(c1.signals, e), Blocked, 1)
  }

  // ---------------------------------------------------------------------------
  // Interleavings: interrupt-context signals between the consumer's steps
  // ---------------------------------------------------------------------------

  /**
    Where the consumer thread is: outside Wait (`Idle`), at the exchange at the
    top of the loop (`Top`), between an empty exchange and the event wait, where
    PreWait runs (`Window`), or parked in the event (`Parked`).
   */
  datatype Pc = Idle | Top | Window | Parked

  /**
    The whole system: the shared state, where the consumer is, and how many
    Signal calls in interrupt context have done their `fetch_or` but not yet
    their `event_signal_etc`.
   */
  datatype Sys = Sys(core: Core, pc: Pc, inflight: nat)

  /** A freshly constructed dispatcher with no thread in Wait and no Signal under way. */
  const INIT: Sys := Sys(NEW_CORE, Idle, 0)

  /**
    An atomic step. A Signal(m) from interrupt context is two steps, `OrIn(m)`
    (its `fetch_or`) and later `Notify` (its `event_signal_etc`), with other
    steps possibly between them; `Fire(m)` is a Signal(m) whose two halves run
    back to back (Cancel is `Fire(CancelMask())`). `Enter` starts a Wait call,
    `Advance` runs the consumer's next atomic step, and `Abort(st)` ends a
    parked wait with status st.
   */
  datatype Action =
    | Fire(mask: Word)
    | OrIn(mask: Word)
    | Notify
    | Enter
    | Advance
    | Abort(status: Status)

  /** One atomic step; the sequence holds what a returning Wait call reports, if one returns. */
  function Step(s: Sys, a: Action): (r: (Sys, seq<WaitOutcome>))
    ensures |r.1| <= 1
    ensures r.1 != [] ==> r.0.pc == Idle && r.1[0] != Blocked
    ensures a.Fire? || a.OrIn? ==> r.0.core.signals == s.core.signals + a.mask
  {
    match a
    case Fire(m) =>
      var (c, woke) := SignalCore(s.core, m);
      (s.(core := c, pc := if woke > 0 && s.pc == Parked then Top else s.pc), [])
    case OrIn(m) =>
      (s.(core := s.core.(signals := s.core.signals + m), inflight := s.inflight + 1), [])
    case Notify =>
      if s.inflight > 0 then
        var (e, woke) := EventSignal(s.core.event);
        (Sys(s.core.(event := e), if woke > 0 && s.pc == Parked then Top else s.pc, s.inflight - 1), [])
      else
        (s, [])
    case Enter =>
      (if s.pc == Idle then s.(pc := Top) else s, [])
    case Advance =>
      if s.pc == Top then
        var (c, taken) := Take(s.core);
        match taken
        case TookCancel => (s.(core := c, pc := Idle), [Canceled])
        case TookSignals(bits) => (s.(core := c, pc := Idle), [Delivered(bits)])
        case TookNothing => (s.(core := c, pc := Window), [])
      else if s.pc == Window then
        var (e, passed) := EventWait(s.core.event);
        (s.(core := s.core.(event := e), pc := if passed then Top else Parked), [])
      else
        (s, [])
    case Abort(st) =>
      if s.pc == Parked && st != Ok && st != ErrCanceled && s.core.event.waiters > 0 then
        (s.(core := s.core.(event := EventRelease(s.core.event)), pc := Idle), [Failed(st)])
      else
        (s, [])
  }

  /** A trace of atomic steps and everything the Wait calls in it report, in order. */
  function Run(s: Sys, tr: seq<Action>): (r: (Sys, seq<WaitOutcome>))
    ensures |r.1| <= |tr|
    ensures Blocked !in r.1
    decreases |tr|
  {
    if tr == [] then (s, [])
    else
      var (s1, out1) := Step(s, tr[0]);
      var (s2, out2) := Run(s1, tr[1..]);
      (s2, out1 + out2)
  }

  /**
    The ordering invariant: a ready mark means nobody is parked; the one
    consumer is counted by the event exactly while parked; a bit pending
    between an empty exchange and the event wait has left the event ready or
    has a Signal still owing its event signal; and the consumer sleeps with a
    bit pending only while such a Signal is under way, which will wake it.
   */
  predicate Inv(s: Sys)
  {
    && EventValid(s.core.event)
    && s.core.event.waiters == (if s.pc == Parked then 1 else 0)
    && (s.pc == Window && s.core.signals != {} ==> s.core.event.signaled || s.inflight > 0)
    && (s.pc == Parked && s.core.signals != {} ==> s.inflight > 0)
  }

  /** Wait reported a result that covers the bits of m (a cancellation covers everything). */
  predicate Reports(o: WaitOutcome, m: Word)
  {
    o == Canceled || (o.Delivered? && m <= o.signals)
  }

  /** Signal(m) for each m in order, from interrupt context. */
  function Fires(ms: seq<Word>): (tr: seq<Action>)
    ensures |tr| == |ms|
    ensures forall k :: 0 <= k < |ms| ==> tr[k] == Fire(ms[k])
  {
    seq(|ms|, k requires 0 <= k < |ms| => Fire(ms[k]))
  }

  /** The OR of a sequence of words. */
  function OrAll(ms: seq<Word>): (w: Word)
    ensures forall k :: 0 <= k < |ms| ==> ms[k] <= w
    decreases |ms|
  {
    if ms == [] then {} else ms[0] + OrAll(ms[1..])
  }

  /** No Signal in the trace raises the cancellation bit. */
  predicate NoCancelFire(tr: seq<Action>)
  {
    forall k :: 0 <= k < |tr| && (tr[k].Fire? || tr[k].OrIn?) ==> ZX_INTERRUPT_CANCEL !in tr[k].mask
  }

  // ---------------------------------------------------------------------------
  // Properties
  // ---------------------------------------------------------------------------

  /** A new dispatcher satisfies the ordering invariant. */
  lemma InitInv()
    ensures Inv(INIT)
    ensures INIT.core.signals == {} && !INIT.core.event.signaled
  {
  }

  /** Every atomic step keeps the ordering invariant. */
  lemma StepKeepsInv(s: Sys, a: Action)
    requires Inv(s)
    ensures Inv(Step(s, a).0)
  {
  }

  /** Running a trace step by step is the same as running its two halves one after the other. */
  lemma {:induction false} RunAppend(s: Sys, t1: seq<Action>, t2: seq<Action>)
    ensures Run(s, t1 + t2) == (Run(Run(s, t1).0, t2).0, Run(s, t1).1 + Run(Run(s, t1).0, t2).1)
    decreases |t1|
  {
    if t1 == [] {
      assert t1 + t2 == t2;
      assert Run(s, t1) == (s, []);
      assert [] + Run(s, t2).1 == Run(s, t2).1;
    } else {
      var (s1, out1) := Step(s, t1[0]);
      assert (t1 + t2)[0] == t1[0];
      assert (t1 + t2)[1..] == t1[1..] + t2;
      RunAppend(s1, t1[1..], t2);
      var mid := Run(s1, t1[1..]);
      assert out1 + (mid.1 + Run(mid.0, t2).1) == (out1 + mid.1) + Run(mid.0, t2).1;
    }
  }

  /** The ordering invariant holds after any interleaving of signals and consumer steps. */
  lemma {:induction false} RunKeepsInv(s: Sys, tr: seq<Action>)
    requires Inv(s)
    ensures Inv(Run(s, tr).0)
    decreases |tr|
  {
    if tr != [] {
      StepKeepsInv(s, tr[0]);
      RunKeepsInv(Step(s, tr[0]).0, tr[1..]);
    }
  }

  /**
    No lost wake-up: in every reachable state, a consumer parked while a bit
    is pending has a Signal under way that has done its fetch-or but not yet
    its event signal, and that event signal wakes it; a bit pending between
    an empty exchange and the event wait has left the event ready or has such
    a Signal under way.
   */
  lemma NoLostWakeup(tr: seq<Action>)
    ensures var s := Run(INIT, tr).0;
            && (s.pc == Parked && s.core.signals != {} ==>
                  s.inflight > 0 && Step(s, Notify).0.pc == Top)
            && (s.pc == Window && s.core.signals != {} ==>
                  s.core.event.signaled || s.inflight > 0)
  {
    InitInv();
    RunKeepsInv(INIT, tr);
  }

  /** A Signal whose two halves run back to back is the one-step `Fire`. */
  lemma FireIsOrInThenNotify(s: Sys, m: Word)
    ensures Run(s, [OrIn(m), Notify]) == Step(s, Fire(m))
  {
    var s1 := Step(s, OrIn(m)).0;
    var s2 := Step(s1, Notify).0;
    assert [OrIn(m), Notify][1..] == [Notify];
    assert [Notify][1..] == [];
    assert Run(s2, []) == (s2, []);
  }

  /**
    A Signal raised at any point of a Wait call is reported by that call even
    when the consumer runs between its `fetch_or` and its event signal: the
    consumer either takes the bit at once or parks, and then the event signal
    wakes it.
   */
  lemma SplitSignalReachesWaiter(s: Sys, m: Word)
    requires Inv(s) && s.pc != Idle && m != {}
    ensures var r := Run(s, [OrIn(m), Advance, Advance, Notify, Advance, Advance]);
            && r.0.pc == Idle && r.0.core.signals == {}
            && |r.1| == 1 && Reports(r.1[0], m)
  {
    var tr := [OrIn(m), Advance, Advance, Notify, Advance, Advance];
    var s1 := Step(s, tr[0]).0;
    var s2 := Step(s1, tr[1]).0;
    var s3 := Step(s2, tr[2]).0;
    var s4 := Step(s3, tr[3]).0;
    var s5 := Step(s4, tr[4]).0;
    var s6 := Step(s5, tr[5]).0;
    assert tr[1..] == [Advance, Advance, Notify, Advance, Advance];
    assert tr[2..] == tr[1..][1..] == [Advance, Notify, Advance, Advance];
    assert tr[3..] == tr[2..][1..] == [Notify, Advance, Advance];
    assert tr[4..] == tr[3..][1..] == [Advance, Advance];
    assert tr[5..] == tr[4..][1..] == [Advance];
    assert tr[5..][1..] == [];
    assert Run(s6, []) == (s6, []);
    var o1, o2, o3, o4, o5, o6 :=
      Step(s, tr[0]).1, Step(s1, tr[1]).1, Step(s2, tr[2]).1,
      Step(s3, tr[3]).1, Step(s4, tr[4]).1, Step(s5, tr[5]).1;
    assert Run(s5, tr[5..]) == (s6, o6 + []);
    assert Run(s4, tr[4..]) == (s6, o5 + (o6 + []));
    assert Run(s3, tr[3..]) == (s6, o4 + (o5 + (o6 + [])));
    assert Run(s2, tr[2..]) == (s6, o3 + (o4 + (o5 + (o6 + []))));
    assert Run(s1, tr[1..]) == (s6, o2 + (o3 + (o4 + (o5 + (o6 + [])))));
    assert Run(s, tr) == (s6, o1 + (o2 + (o3 + (o4 + (o5 + (o6 + []))))));
    if s.pc == Top {
      assert o2 == [Delivered(s1.core.signals)] || o2 == [Canceled];
      assert o1 == [] && o3 == [] && o4 == [] && o5 == [] && o6 == [];
    } else if s.pc == Window && s.core.event.signaled {
      assert s2.pc == Top;
      assert o3 == [Delivered(s2.core.signals)] || o3 == [Canceled];
      assert o1 == [] && o2 == [] && o4 == [] && o5 == [] && o6 == [];
    } else {
      assert s2.pc == Parked && s3 == s2;
      assert s4.pc == Top && s4.core.signals == s1.core.signals;
      assert o5 == [Delivered(s4.core.signals)] || o5 == [Canceled];
      assert o1 == [] && o2 == [] && o3 == [] && o4 == [] && o6 == [];
    }
  }

  /**
    A Signal that falls between an empty exchange and the event wait leaves
    the event ready; the wait then passes and the loop's next exchange
    returns the signalled bits.
   */
  lemma SignalInWindowIsSeen(s: Sys, m: Word)
    requires Inv(s) && s.pc == Window && m != {}
    ensures var s1 := Step(s, Fire(m)).0;
            && s1.core.event.signaled
            && Step(s1, Advance).0.pc == Top
            && var out := Step(Step(s1, Advance).0, Advance).1;
               |out| == 1 && Reports(out[0], m)
  {
  }

  /**
    A Signal raised at any point of a Wait call (before the exchange, in the
    window before the event wait, or while parked) is reported by that call
    within two more consumer steps.
   */
  lemma SignalReachesWaiter(s: Sys, m: Word)
    requires Inv(s) && s.pc != Idle && m != {}
    ensures var r := Run(s, [Fire(m), Advance, Advance]);
            && r.0.pc == Idle && r.0.core.signals == {}
            && |r.1| == 1 && Reports(r.1[0], m)
            && (r.1[0].Delivered? ==> ZX_INTERRUPT_CANCEL !in r.1[0].signals)
  {
    var s1 := Step(s, Fire(m)).0;
    var s2 := Step(s1, Advance).0;
    var s3 := Step(s2, Advance).0;
    assert Run(s3, []) == (s3, []);
    assert [Fire(m), Advance, Advance][1..] == [Advance, Advance];
    assert [Advance, Advance][1..] == [Advance];
    assert [Advance][1..] == [];
  }

  /** Signals raised while no thread is parked accumulate by OR and report nothing. */
  lemma {:induction false} FiresAccumulate(s: Sys, ms: seq<Word>)
    requires Inv(s) && s.pc != Parked
    ensures Run(s, Fires(ms)).0.core.signals == s.core.signals + OrAll(ms)
    ensures Run(s, Fires(ms)).0.pc == s.pc
    ensures Inv(Run(s, Fires(ms)).0)
    ensures Run(s, Fires(ms)).1 == []
    decreases |ms|
  {
    if ms != [] {
      var s1 := Step(s, Fire(ms[0])).0;
      StepKeepsInv(s, Fire(ms[0]));
      assert Fires(ms)[1..] == Fires(ms[1..]);
      FiresAccumulate(s1, ms[1..]);
    }
  }

  /** Repeated firings of the same mask coalesce into that mask. */
  lemma {:induction false} Coalesce(m: Word, n: nat)
    ensures OrAll(seq(n, _ => m)) == if n == 0 then {} else m
  {
    if n > 0 {
      assert seq(n, _ => m)[1..] == seq(n - 1, _ => m);
      Coalesce(m, n - 1);
    }
  }

  /** The OR of a sequence has a bit exactly when some element has it. */
  lemma {:induction false} OrAllHasBit(ms: seq<Word>, i: BitIndex)
    ensures i in OrAll(ms) <==> exists k :: 0 <= k < |ms| && i in ms[k]
  {
    if ms != [] {
      OrAllHasBit(ms[1..], i);
      if i in OrAll(ms[1..]) {
        var k :| 0 <= k < |ms[1..]| && i in ms[1..][k];
        assert i in ms[k + 1];
      }
      if exists k :: 0 <= k < |ms| && i in ms[k] {
        var k :| 0 <= k < |ms| && i in ms[k];
        if k > 0 {
          assert i in ms[1..][k - 1];
        }
      }
    }
  }

  /**
    Exact delivery: after a Wait has returned (nothing pending), the next Wait
    reports exactly the OR of the masks signalled meanwhile, no bit more or
    less, or Canceled if one of them was the cancellation bit; if nothing was
    signalled it goes on towards the event wait.
   */
  lemma ExactDelivery(s: Sys, ms: seq<Word>)
    requires Inv(s) && s.pc == Idle && s.core.signals == {}
    ensures Run(s, Fires(ms) + [Enter, Advance]).1 ==
              if ZX_INTERRUPT_CANCEL in OrAll(ms) then [Canceled]
              else if OrAll(ms) != {} then [Delivered(OrAll(ms))]
              else []
  {
    RunAppend(s, Fires(ms), [Enter, Advance]);
    FiresAccumulate(s, ms);
    var s1 := Run(s, Fires(ms)).0;
    assert s1.core.signals == OrAll(ms);
    var s2 := Step(s1, Enter).0;
    var s3 := Step(s2, Advance).0;
    assert Run(s3, []) == (s3, []);
    assert [Enter, Advance][1..] == [Advance];
    assert [Advance][1..] == [];
  }

  /** The same slot fired n > 0 times before a Wait is reported once, as that slot's bit. */
  lemma RepeatedFiresCoalesce(s: Sys, i: BitIndex, n: nat)
    requires Inv(s) && s.pc == Idle && s.core.signals == {}
    requires i != ZX_INTERRUPT_CANCEL && n > 0
    ensures Run(s, Fires(seq(n, _ => SignalMask(i))) + [Enter, Advance]).1 == [Delivered(SignalMask(i))]
  {
    Coalesce(SignalMask(i), n);
    ExactDelivery(s, seq(n, _ => SignalMask(i)));
  }

  /** A Cancel raised during a Wait call makes that call report Canceled and leaves nothing pending. */
  lemma CancelReleasesWaiter(s: Sys)
    requires Inv(s) && s.pc != Idle
    ensures var r := Run(s, [Fire(CancelMask()), Advance, Advance]);
            && r.1 == [Canceled]
            && r.0.pc == Idle && r.0.core.signals == {}
            && Inv(r.0)
  {
    var m := CancelMask();
    SignalReachesWaiter(s, m);
    RunKeepsInv(s, [Fire(m), Advance, Advance]);
    var r := Run(s, [Fire(m), Advance, Advance]);
    assert r.1[0] == Canceled;
  }

  /** Without a cancelling Signal, no Wait reports Canceled. */
  lemma {:induction false} NoCancelWithoutCancel(s: Sys, tr: seq<Action>)
    requires ZX_INTERRUPT_CANCEL !in s.core.signals
    requires NoCancelFire(tr)
    ensures Canceled !in Run(s, tr).1
    ensures ZX_INTERRUPT_CANCEL !in Run(s, tr).0.core.signals
    decreases |tr|
  {
    if tr != [] {
      var s1 := Step(s, tr[0]).0;
      assert ZX_INTERRUPT_CANCEL !in s1.core.signals;
      assert NoCancelFire(tr[1..]) by {
        forall k | 0 <= k < |tr[1..]| && (tr[1..][k].Fire? || tr[1..][k].OrIn?)
          ensures ZX_INTERRUPT_CANCEL !in tr[1..][k].mask
        {
          assert tr[1..][k] == tr[k + 1];
        }
      }
      NoCancelWithoutCancel(s1, tr[1..]);
    }
  }

  /**
    Cancellation is one-shot: a Cancel during a Wait call is reported once, by
    that call, and no later Wait reports Canceled unless Cancel is raised again.
   */
  lemma CancelIsOneShot(s: Sys, tr: seq<Action>)
    requires Inv(s) && s.pc != Idle
    requires NoCancelFire(tr)
    ensures var out := Run(s, [Fire(CancelMask()), Advance, Advance] + tr).1;
            |out| > 0 && out[0] == Canceled && Canceled !in out[1..]
  {
    var first := [Fire(CancelMask()), Advance, Advance];
    CancelReleasesWaiter(s);
    RunAppend(s, first, tr);
    var s1 := Run(s, first).0;
    NoCancelWithoutCancel(s1, tr);
  }

  /**
    A Wait reports a failure only with the non-OK status the event wait
    handed back to a parked thread: there is no other error path besides
    Canceled.
   */
  lemma {:induction false} FailuresComeFromEventWait(s: Sys, tr: seq<Action>, st: Status)
    requires Failed(st) in Run(s, tr).1
    ensures st != Ok && st != ErrCanceled && Abort(st) in tr
    decreases |tr|
  {
    if tr != [] {
      var (s1, out1) := Step(s, tr[0]);
      RunAppend(s, [tr[0]], tr[1..]);
      assert [tr[0]] + tr[1..] == tr;
      assert Run(s1, []) == (s1, []);
      if Failed(st) in out1 {
        assert tr[0] == Abort(st);
      } else {
        FailuresComeFromEventWait(s1, tr[1..], st);
        assert Abort(st) in tr[1..];
      }
    }
  }

  /**
    The uninterrupted Wait of `WaitAlone` is what the consumer's own steps do
    when no Signal interleaves: four steps from the top of the loop reach the
    same state and report the same result, or leave the thread parked.
   */
  lemma WaitAloneMatchesSteps(c: Core)
    requires Inv(Sys(c, Top, 0))
    ensures var r := Run(Sys(c, Top, 0), [Advance, Advance, Advance, Advance]);
            && r.0.core == WaitAlone(c).core
            && (WaitAlone(c).outcome == Blocked ==> r.0.pc == Parked && r.1 == [])
            && (WaitAlone(c).outcome != Blocked ==> r.0.pc == Idle && r.1 == [WaitAlone(c).outcome])
  {
    var tr := [Advance, Advance, Advance, Advance];
    var s1 := Step(Sys(c, Top, 0), Advance).0;
    var s2 := Step(s1, Advance).0;
    var s3 := Step(s2, Advance).0;
    var s4 := Step(s3, Advance).0;
    assert tr[1..] == [Advance, Advance, Advance];
    assert tr[1..][1..] == [Advance, Advance];
    assert tr[1..][1..][1..] == [Advance];
    assert tr[1..][1..][1..][1..] == [];
    assert Run(s4, []) == (s4, []);
  }
}
