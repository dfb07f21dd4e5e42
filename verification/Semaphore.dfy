/**
 LightweightSemaphore with one waiter and one signaller: each access to the count, and each
 kernel semaphore operation, is one step.  The kernel semaphore is a counter.
 */
module Semaphore {

  /** A negative timeout waits for ever, zero does not wait. */
  datatype Call = TryWait | Wait(timeout: int)

  datatype Waiter =
    | WIdle
    | WTry(call: Call)                  // about to load the count, in tryWait
    | WSpin(timeout: int, spin: nat)    // about to load the count, spin times yet
    | WTake                             // saw a positive count: about to decrement
    | WDec(timeout: int)                // spun out: about to decrement
    | WKernel(timeout: int)             // in the kernel's wait or timed wait
    | WRestore                          // timed out: about to increment
    | WRedec                            // signalled after all: about to decrement
    | WTryKernel                        // about to try the kernel semaphore
    | WReturn(ok: bool)

  datatype Signaller = SIdle | SAdd(n: nat) | SPost | SReturn

  /** signals, waits and before are history: how much was signalled (the initial count
      included), how many waits have succeeded, and how many had when this call began. */
  datatype State = State(
    count: int, kernel: nat, w: Waiter, s: Signaller,
    signals: nat, waits: nat, before: nat)

  datatype Event =
    | StartWait(call: Call)
    | StartSignal(n: nat)
    | WaiterStep
    | KernelFails        // the kernel's wait times out or is interrupted
    | SignallerStep

  ghost predicate Init(s: State, count: nat) {
    s == State(count, 0, WIdle, SIdle, count, 0, 0)
  }

  /** The kernel's wait does not return true before a post. */
  ghost predicate Enabled(s: State, ev: Event) {
    match ev
    case StartWait(_) => s.w.WIdle?
    case StartSignal(_) => s.s.SIdle?
    case WaiterStep => !s.w.WIdle? && (s.w.WKernel? ==> s.kernel > 0 && s.w.timeout != 0)
    case KernelFails => s.w.WKernel?
    case SignallerStep => !s.s.SIdle?
  }

  ghost function Step(s: State, ev: Event): (s': State)
    requires Enabled(s, ev)
  {
    match ev
    case StartWait(call) => s.(w := WTry(call), before := s.waits)
    case StartSignal(n) => s.(s := SAdd(n))
    case WaiterStep => WaiterStep'(s)
    case KernelFails => s.(w := WRestore)
    case SignallerStep => SignallerStep'(s)
  }

  /** atomicops.h:678-745. */
  ghost function WaiterStep'(s: State): (s': State)
    requires Enabled(s, WaiterStep)
  {
    match s.w
    case WTry(call) =>
      if s.count > 0 then s.(w := WTake)
      else if call.TryWait? then s.(w := WReturn(false))
      else s.(w := WSpin(call.timeout, 1024))
    case WSpin(timeout, spin) =>
      if spin == 0 then s.(w := WDec(timeout))
      else if s.count > 0 then s.(w := WTake)
      else s.(w := WSpin(timeout, spin - 1))
    case WTake =>
      s.(count := s.count - 1, waits := s.waits + 1, w := WReturn(true))
    case WDec(timeout) =>
      if s.count > 0 then s.(count := s.count - 1, waits := s.waits + 1, w := WReturn(true))
      else s.(count := s.count - 1, w := WKernel(timeout))
    case WKernel(_) =>
      s.(kernel := s.kernel - 1, waits := s.waits + 1, w := WReturn(true))
    case WRestore =>
      if s.count < 0 then s.(count := s.count + 1, w := WReturn(false))
      else s.(count := s.count + 1, w := WRedec)
    case WRedec =>
      if s.count > 0 then s.(count := s.count - 1, w := WTryKernel)
      else s.(count := s.count - 1, w := WRestore)
    case WTryKernel =>
      if s.kernel > 0 then s.(kernel := s.kernel - 1, waits := s.waits + 1, w := WReturn(true))
      else s.(w := WRestore)
    case WReturn(_) =>
      s.(w := WIdle)
  }

  /** atomicops.h:747-756. */
  ghost function SignallerStep'(s: State): (s': State)
    requires Enabled(s, SignallerStep)
  {
    match s.s
    case SAdd(n) =>
      s.(count := s.count + n, signals := s.signals + n, s := if s.count < 0 then SPost else SReturn)
    case SPost => s.(kernel := s.kernel + 1, s := SReturn)
    case SReturn => s.(s := SIdle)
  }

  /** The waiter has decremented the count below what it may take, and not put it back. */
  predicate Registered(w: Waiter) {
    w.WKernel? || w.WRestore? || w.WTryKernel?
  }

  /** Kernel posts that are there, or on the way. */
  function Posts(s: State): nat {
    s.kernel + if s.s.SPost? then 1 else 0
  }

  ghost predicate Inv(s: State) {
    && s.count == s.signals - s.waits - (if Registered(s.w) then 1 else 0)
    && s.count >= (if Registered(s.w) then -1 else 0)
    && Posts(s) == (if (Registered(s.w) && s.count >= 0) || s.w.WRedec? then 1 else 0)
    && (s.w.WTake? || s.w.WRedec? ==> s.count > 0)
    && (s.w.WTryKernel? ==> s.count >= 0)
    && (!s.w.WIdle? ==> s.waits == s.before + if s.w == WReturn(true) then 1 else 0)
  }

  lemma InitOk(s: State, count: nat)
    requires Init(s, count)
    ensures Inv(s)
  {
  }

  lemma WaiterStepOk(s: State)
    requires Inv(s) && Enabled(s, WaiterStep)
    ensures Inv(WaiterStep'(s))
  {
  }

  /** Signalling nothing at all breaks the invariant just when a waiter is waiting: it is woken
      though there is nothing for it. */
  lemma AddExact(s: State)
    requires Inv(s) && s.s.SAdd?
    ensures Inv(SignallerStep'(s)) <==> s.s.n >= 1 || s.count >= 0
  {
    if s.s.n == 0 && s.count < 0 {
      assert Posts(SignallerStep'(s)) == 1;
    }
  }

  /** Every step keeps the invariant, if a signal of nothing never meets a waiting waiter. */
  lemma StepOk(s: State, ev: Event)
    requires Inv(s) && Enabled(s, ev) && (s.s.SAdd? && ev.SignallerStep? ==> s.s.n >= 1 || s.count >= 0)
    ensures Inv(Step(s, ev))
  {
    match ev
    case WaiterStep => WaiterStepOk(s);
    case SignallerStep => if s.s.SAdd? { AddExact(s); }
    case _ =>
  }

  // ---------- runs ----------

  ghost predicate IsRun(states: seq<State>, evs: seq<Event>, count: nat) {
    && |states| == |evs| + 1 && Init(states[0], count)
    && forall i :: 0 <= i < |evs| ==>
      Enabled(states[i], evs[i]) && states[i + 1] == Step(states[i], evs[i])
  }

  /** Nothing is signalled to a waiter that is registered: signal(0) finds a negative count. */
  predicate SignalsNothing(s: State, ev: Event) {
    ev.SignallerStep? && s.s == SAdd(0) && s.count < 0
  }

  lemma StepExact(s: State, ev: Event)
    requires Inv(s) && Enabled(s, ev)
    ensures Inv(Step(s, ev)) <==> !SignalsNothing(s, ev)
  {
    if s.s.SAdd? && ev.SignallerStep? {
      AddExact(s);
    } else {
      StepOk(s, ev);
    }
  }

  /** For every run: the invariant holds throughout if and only if no signal of nothing ever meets a
      registered waiter. */
  lemma {:induction false} RunExact(states: seq<State>, evs: seq<Event>, count: nat, n: nat)
    requires IsRun(states, evs, count) && n <= |evs|
    ensures (forall i :: 0 <= i <= n ==> Inv(states[i]))
      <==> (forall i :: 0 <= i < n ==> !SignalsNothing(states[i], evs[i]))
  {
    if n > 0 {
      RunExact(states, evs, count, n - 1);
      var s, ev := states[n - 1], evs[n - 1];
      assert Enabled(s, ev) && states[n] == Step(s, ev);
      if Inv(s) {
        StepExact(s, ev);
      }
    }
  }

  /** In every such interleaving the count is what was signalled, less the successful waits, less one
      exactly while a wait is registered; it is never below -1; at most one post is there or on
      the way; and no wait succeeds without a signal of its own. */
  lemma RunOk(states: seq<State>, evs: seq<Event>, count: nat, n: nat)
    requires IsRun(states, evs, count) && n < |states|
    requires forall i :: 0 <= i < n ==> !SignalsNothing(states[i], evs[i])
    ensures Inv(states[n])
    ensures states[n].count == states[n].signals - states[n].waits - (if Registered(states[n].w) then 1 else 0)
    ensures states[n].count >= -1 && Posts(states[n]) <= 1 && states[n].waits <= states[n].signals
  {
    RunExact(states, evs, count, n);
  }

  // ---------- a run that goes wrong ----------

  ghost predicate Reached(s: State, count: nat) {
    exists states, evs :: IsRun(states, evs, count) && states[|evs|] == s
  }

  lemma Go(s: State, ev: Event, count: nat)
    requires Reached(s, count) && Enabled(s, ev)
    ensures Reached(Step(s, ev), count)
  {
    var states: seq<State>, evs: seq<Event> :| IsRun(states, evs, count) && states[|evs|] == s;
    var states', evs' := states + [Step(s, ev)], evs + [ev];
    forall i | 0 <= i < |evs'| ensures Enabled(states'[i], evs'[i]) && states'[i + 1] == Step(states'[i], evs'[i]) {
      if i < |evs| {
        assert Enabled(states[i], evs[i]) && states[i + 1] == Step(states[i], evs[i]);
      }
    }
    assert IsRun(states', evs', count) && states'[|evs'|] == Step(s, ev);
  }

  /** A semaphore that nothing was ever signalled to. */
  ghost function Unsignalled(count: int, kernel: nat, w: Waiter, s: Signaller): State {
    State(count, kernel, w, s, 0, 0, 0)
  }

  lemma {:induction false} Spin(spin: nat)
    requires spin <= 1024
    ensures Reached(Unsignalled(0, 0, WSpin(-1, spin), SIdle), 0)
    decreases 1024 - spin
  {
    if spin == 1024 {
      var s := Unsignalled(0, 0, WIdle, SIdle);
      var evs: seq<Event> := [];
      assert IsRun([s], evs, 0) && [s][|evs|] == s;
      Go(s, StartWait(Wait(-1)), 0);
      Go(Step(s, StartWait(Wait(-1))), WaiterStep, 0);
    } else {
      Spin(spin + 1);
      Go(Unsignalled(0, 0, WSpin(-1, spin + 1), SIdle), WaiterStep, 0);
    }
  }

  /** A wait for ever, asleep in the kernel, and then signal(0): it returns successfully though
      nothing was ever signalled. */
  lemma SignalNothingFaults()
    ensures Reached(State(-1, 0, WReturn(true), SReturn, 0, 1, 0), 0)
  {
    Spin(0);
    Go(Unsignalled(0, 0, WSpin(-1, 0), SIdle), WaiterStep, 0);
    Go(Unsignalled(0, 0, WDec(-1), SIdle), WaiterStep, 0);
    Go(Unsignalled(-1, 0, WKernel(-1), SIdle), StartSignal(0), 0);
    Go(Unsignalled(-1, 0, WKernel(-1), SAdd(0)), SignallerStep, 0);
    Go(Unsignalled(-1, 0, WKernel(-1), SPost), SignallerStep, 0);
    Go(Unsignalled(-1, 1, WKernel(-1), SReturn), WaiterStep, 0);
  }

  // ---------- what a call does ----------

  /** When a wait fails there is nothing to wait for at that moment, nothing is taken, and no
      post is left behind for a later wait to find. */
  lemma FailsOnlyOnNothing(s: State, ev: Event)
    requires Inv(s) && Enabled(s, ev) && Step(s, ev).w == WReturn(false) && s.w != WReturn(false)
    ensures s.signals == s.waits == s.before
    ensures Posts(Step(s, ev)) == 0 && Step(s, ev).count == 0
  {
  }

  /** The waiter has been told by the kernel that it will not wait any longer. */
  predicate GivingUp(w: Waiter) {
    w.WRestore? || w.WRedec? || w.WTryKernel? || w == WReturn(false)
  }

  lemma {:induction false} FailedBefore(states: seq<State>, evs: seq<Event>, count: nat, m: nat, n: nat)
    requires IsRun(states, evs, count) && m < n <= |evs|
    requires evs[m].StartWait? && evs[m].call.Wait? && forall k :: m < k <= n ==> !states[k].w.WIdle?
    ensures states[n].w.WTry? ==> states[n].w.call.Wait?
    ensures GivingUp(states[n].w) ==> exists k :: m < k < n && evs[k].KernelFails?
  {
    var k := n - 1;
    assert Enabled(states[k], evs[k]) && states[k + 1] == Step(states[k], evs[k]);
    if k > m {
      FailedBefore(states, evs, count, m, k);
    }
  }

  /** A call of wait returns false only after the kernel's wait timed out, or was interrupted, in it. */
  lemma WaitGivesUpOnlyOnTimeout(states: seq<State>, evs: seq<Event>, count: nat, m: nat, n: nat)
    requires IsRun(states, evs, count) && m < n <= |evs|
    requires evs[m].StartWait? && evs[m].call.Wait? && forall k :: m < k <= n ==> !states[k].w.WIdle?
    requires states[n].w == WReturn(false)
    ensures exists k :: m < k < n && evs[k].KernelFails?
  {
    FailedBefore(states, evs, count, m, n);
  }

  /** tryWait never waits: it neither spins nor sleeps, nor leaves the count below zero meanwhile. */
  lemma {:induction false} TryWaitNeverWaits(states: seq<State>, evs: seq<Event>, count: nat, m: nat, n: nat)
    requires IsRun(states, evs, count) && m < n <= |evs|
    requires evs[m] == StartWait(TryWait) && forall k :: m < k <= n ==> !states[k].w.WIdle?
    ensures states[n].w == WTry(TryWait) || states[n].w.WTake? || states[n].w.WReturn?
  {
    var k := n - 1;
    assert Enabled(states[k], evs[k]) && states[k + 1] == Step(states[k], evs[k]);
    if k > m {
      TryWaitNeverWaits(states, evs, count, m, k);
    }
  }

  /** No wake-up is lost: asleep in the kernel with no post there or on the way, there is nothing
      signalled that was not waited for. */
  lemma NoLostWakeup(s: State)
    requires Inv(s) && s.w.WKernel?
    ensures (s.signals > s.waits) <==> (s.kernel == 1 || s.s.SPost?)
  {
  }

  /** A wait that gave up on the kernel goes round again only while the post meant for it is on the way. */
  lemma RetriesOnlyForPost(s: State)
    requires Inv(s) && Enabled(s, WaiterStep) && WaiterStep'(s).w.WRestore?
    ensures s.w.WTryKernel? && s.s.SPost? && s.count >= 0
  {
  }

  /** atomicops.h:758-762. */
  function AvailableApprox(s: State): nat {
    if s.count > 0 then s.count else 0
  }

  /** At most one signalled unit is not shown, and only to a waiter that is registered. */
  lemma AvailableExact(s: State)
    requires Inv(s)
    ensures AvailableApprox(s) ==
      if Registered(s.w) && s.signals > s.waits then s.signals - s.waits - 1 else s.signals - s.waits
  {
  }
}
