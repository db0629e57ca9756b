/** Values of the fiber protocol: the fields of `Fiber::Impl`, the activation a stack is parked in, and the critical
  * sections of fiber.cc as functions on the fields they write. */
module FiberTypes {
  import opened Options

  type Fid = nat
  type Tid = nat

  datatype State = INIT | READY | EXEC | WAITING | TERM | EXCEPT

  datatype WaitReason = NoReason | IO | Timer | Semaphore | External

  type HoldReason = r: WaitReason | r != NoReason witness IO

  /** How one segment of a callback ends: at a YieldToReady, at a YieldToHold, or by leaving the callback. */
  datatype SegmentEnd = EndReady | EndHold(reason: HoldReason) | EndReturn | EndThrow

  /** A callback, seen from outside: segment k runs between the k-th switch in and the next switch out.
    * What follows an EndReturn or EndThrow is never looked at. */
  type Body = nat -> SegmentEnd

  function Outcome(e: SegmentEnd): State {
    match e
    case EndReady => READY
    case EndHold(_) => WAITING
    case EndReturn => TERM
    case EndThrow => EXCEPT
  }

  /** Where the code on a stack stands. Nothing but the switch inside `resume` and `yield` (or the unwinding
    * inside the destructor) hands control to another stack, so one activation describes a whole stack. */
  datatype Pc =
    | User                                                       // in the thread's own code or in the callback
    | Entry                                                      // fresh context, the entry function has not begun
    | Suspended                                                  // inside yield, after the switch
    | ResumeHeld(g: Fid)                                         // OperationGuard constructed
    | ResumeExec(g: Fid)                                         // EXEC stored
    | ResumeGuarded(g: Fid, prev: Option<Fid>)                   // CurrentFiberGuard constructed
    | ResumeAway(g: Fid, prev: Option<Fid>)                      // switched into g: this stack is g's caller
    | ResumeBack(g: Fid, prev: Option<Fid>, ret: Option<Stack>)  // switch returned, context not yet assigned
    | ResumeSaved(g: Fid, prev: Option<Fid>)                     // context assigned
    | ResumeRead(g: Fid, prev: Option<Fid>, result: State)       // suspendState loaded
    | ResumeUnguarded(g: Fid, result: State)                     // CurrentFiberGuard destroyed
    | YieldPublished(g: Fid)                                     // yield left its critical section
    | RunCaught                                                  // exception stored, EXCEPT not yet
    | RunDone                                                    // TERM or EXCEPT stored, about to return the caller
    | ResetHeld(g: Fid, callback: Option<Body>)                   // OperationGuard constructed
    | ResetCleared(g: Fid, body: Body)                           // exception cleared
    | ResetBuilt(g: Fid, body: Body)                             // callback, caller and context assigned
    | ResetReasoned(g: Fid, body: Body)                          // waitReason stored
    | ResetSuspended(g: Fid, body: Body)                         // suspendState stored
    | ResetStored(g: Fid)                                        // INIT stored
    | DestroyGuarded(g: Fid, prev: Option<Fid>)                  // destructor checked, CurrentFiberGuard constructed
    | DestroyAway(g: Fid, prev: Option<Fid>)                     // g's suspended stack is unwinding
    | DestroyDone(g: Fid, prev: Option<Fid>)                     // context gone

  /** A stack: whose it is (no fiber for a thread's own stack), where it stands, and which segment it runs or will
    * run. */
  datatype Stack = Stack(owner: Option<Fid>, pc: Pc, pos: nat)

  /** The mutable fields of `Fiber::Impl`. A context or caller is a one-shot continuation: a stack or nothing. */
  datatype Impl = Impl(
    state: State,
    suspendState: State,
    waitReason: WaitReason,
    operating: bool,
    exception: bool,
    callback: Option<Body>,
    caller: Option<Stack>,
    context: Option<Stack>)

  function FreshStack(g: Fid): Stack {
    Stack(Some(g), Entry, 0)
  }

  function Constructed(g: Fid, body: Body): Impl {
    Impl(INIT, INIT, NoReason, false, false, Some(body), None, Some(FreshStack(g)))
  }

  predicate Resumable(state: State) {
    state == INIT || state == READY
  }

  predicate Finished(state: State) {
    state == TERM || state == EXCEPT
  }

  /** The critical section of `wake` when the state is WAITING. */
  function Woken(i: Impl): Impl {
    i.(waitReason := NoReason, state := READY)
  }

  /** The critical section of `yield` once its check has passed. */
  function Yielded(i: Impl, target: State, reason: WaitReason): Impl {
    i.(waitReason := reason, suspendState := target, state := target)
  }

  /** The last critical section of `run`, in either branch. */
  function Ended(i: Impl, terminal: State): Impl {
    i.(callback := None, waitReason := NoReason, suspendState := terminal, state := terminal)
  }

  /** The part of `initializeContext` that other threads cannot see: callback, caller and context. */
  function Rebuilt(g: Fid, i: Impl, body: Body): Impl {
    i.(callback := Some(body), caller := None, context := Some(FreshStack(g)))
  }
}
