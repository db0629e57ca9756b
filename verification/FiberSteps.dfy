/** The fiber protocol as a transition system: any number of threads and fibers, one atomic load, store,
  * test-and-set, critical section or stack switch per step. A step that is not possible changes nothing, so every
  * sequence of actions is a run. */
module FiberSteps {
  import opened Options
  import opened FiberTypes

  /** Where a fiber stands in the chains of resumes, for the invariants; it decides no step. */
  datatype Place = Nowhere | AtTop(t: Tid) | InChain(t: Tid, i: nat)

  /** A fiber object. `unwinder` is the stack that runs the destructor while the suspended stack unwinds. */
  datatype Fiber = Fiber(impl: Impl, dying: bool, unwinder: Option<Stack>, place: Place)

  /** A thread: the stack it executes, its `g_currentFiber`, and (for the invariants; it decides no step) the
    * fibers whose stacks are nested on it, outermost first. */
  datatype Thread = Thread(stack: Stack, current: Option<Fid>, chain: seq<Fid>)

  datatype Sys = Sys(halted: bool, lastId: nat, count: int, fibers: map<Fid, Fiber>, threads: map<Tid, Thread>)

  /** The chain without its innermost fiber. */
  function Popped(chain: seq<Fid>): seq<Fid> {
    if chain == [] then [] else chain[..|chain| - 1]
  }

  /** The kind of yield that user code asks for. */
  datatype YieldKind = ToReady | ToHold(reason: WaitReason)

  datatype Action =
    | Construct(t: Tid, body: Option<Body>)         // no body: an empty callback
    | Destroy(t: Tid, g: Fid)
    | Resume(t: Tid, g: Fid)
    | Reset(t: Tid, g: Fid, body: Option<Body>)
    | Wake(t: Tid, g: Fid)
    | EndSegment(t: Tid)                            // the running callback does what its script says next
    | StrayYield(t: Tid, kind: YieldKind)           // from a thread's own code, from cleanup code, or without a reason
    | EndCleanup(t: Tid)                            // the unwinding stack of a dying fiber is done
    | Advance(t: Tid)                               // one step inside a member function

  datatype Event =
    | Nothing
    | Internal
    | WasConstructed(g: Fid, body: Body)
    | ConstructRejected
    | WasDestroyed(g: Fid)
    | Terminated
    | AlreadyActive(g: Fid)
    | NotResumable(g: Fid)
    | NoContext(g: Fid)
    | Accepted(g: Fid)
    | SegmentStarted(g: Fid, k: nat)
    | SegmentEnded(g: Fid, state: State)
    | YieldRejected(current: Option<Fid>)
    | Returned(g: Fid, state: State)
    | WokeUp(g: Fid)
    | WakeIgnored(g: Fid)
    | NotFinished(g: Fid)
    | SelfReset(g: Fid)
    | EmptyReset(g: Fid)
    | WasReset(g: Fid, body: Body)

  function Initial(threads: set<Tid>): Sys {
    Sys(false, 0, 0, map[], map t | t in threads :: Thread(Stack(None, User, 0), None, []))
  }

  function Put(s: Sys, t: Tid, th: Thread, g: Fid, f: Fiber): Sys {
    s.(threads := s.threads[t := th], fibers := s.fibers[g := f])
  }

  function At(th: Thread, pc: Pc): Thread {
    th.(stack := th.stack.(pc := pc))
  }

  predicate Callable(s: Sys, g: Fid) {
    g in s.fibers && !s.fibers[g].dying
  }

  /** The OperationGuard constructor: test-and-set. */
  function Acquire(s: Sys, t: Tid, th: Thread, g: Fid, pc: Pc): (Sys, Event)
    requires g in s.fibers
  {
    var f := s.fibers[g];
    if f.impl.operating then (s, AlreadyActive(g))
    else (Put(s, t, At(th, pc), g, f.(impl := f.impl.(operating := true), place := AtTop(t))), Internal)
  }

  function SetImpl(s: Sys, t: Tid, th: Thread, pc: Pc, g: Fid, i: Impl): Sys
    requires g in s.fibers
  {
    Put(s, t, At(th, pc), g, s.fibers[g].(impl := i))
  }

  /** What one step inside `resume` or `reset` leaves: the activation, the thread's `g_currentFiber` and the fields. */
  datatype Local = Local(pc: Pc, current: Option<Fid>, impl: Impl, event: Event)

  /** The OperationGuard destructor, on a normal return or on an exception. */
  function Release(current: Option<Fid>, i: Impl, e: Event): Local {
    Local(User, current, i.(operating := false), e)
  }

  /** One step inside `resume`, except the switch into the fiber. */
  function ResumeStep(pc: Pc, current: Option<Fid>, g: Fid, i: Impl): Local {
    match pc
    case ResumeHeld(_) =>
      if !Resumable(i.state) then Release(current, i, NotResumable(g))
      else if i.context.None? then Release(current, i, NoContext(g))
      else Local(ResumeExec(g), current, i.(state := EXEC), Accepted(g))
    case ResumeExec(_) => Local(ResumeGuarded(g, current), Some(g), i, Internal)
    case ResumeBack(_, prev, ret) => Local(ResumeSaved(g, prev), current, i.(context := ret), Internal)
    case ResumeSaved(_, prev) => Local(ResumeRead(g, prev, i.suspendState), current, i, Internal)
    case ResumeRead(_, prev, result) => Local(ResumeUnguarded(g, result), prev, i, Internal)
    case ResumeUnguarded(_, result) => Release(current, i, Returned(g, result))
    case _ => Local(pc, current, i, Nothing)
  }

  /** One step inside `reset`. */
  function ResetStep(pc: Pc, current: Option<Fid>, g: Fid, i: Impl): Local {
    match pc
    case ResetHeld(_, callback) =>
      if !Finished(i.state) then Release(current, i, NotFinished(g))
      else if current == Some(g) then Release(current, i, SelfReset(g))
      else if callback.None? then Release(current, i, EmptyReset(g))
      else Local(ResetCleared(g, callback.value), current, i.(exception := false), Internal)
    case ResetCleared(_, body) => Local(ResetBuilt(g, body), current, Rebuilt(g, i, body), Internal)
    case ResetBuilt(_, body) => Local(ResetReasoned(g, body), current, i.(waitReason := NoReason), Internal)
    case ResetReasoned(_, body) => Local(ResetSuspended(g, body), current, i.(suspendState := INIT), Internal)
    case ResetSuspended(_, body) => Local(ResetStored(g), current, i.(state := INIT), WasReset(g, body))
    case ResetStored(_) => Release(current, i, Internal)
    case _ => Local(pc, current, i, Nothing)
  }

  /** `yield` on the current fiber, up to the end of its critical section. */
  function CallYield(s: Sys, t: Tid, th: Thread, kind: YieldKind): (Sys, Event) {
    if th.current.None? || kind == ToHold(NoReason) || th.current.value !in s.fibers then (s, YieldRejected(th.current))
    else
      var g := th.current.value;
      var i := s.fibers[g].impl;
      if i.state != EXEC || i.caller.None? then (s, YieldRejected(th.current))
      else
        var target := if kind.ToReady? then READY else WAITING;
        var reason := if kind.ToReady? then NoReason else kind.reason;
        (SetImpl(s, t, At(th, User).(stack := th.stack.(pos := th.stack.pos + 1)), YieldPublished(g), g,
            Yielded(i, target, reason)),
         SegmentEnded(g, target))
  }

  /** The running callback reaches the end of the segment that its script prescribes. */
  function CallEnd(s: Sys, t: Tid, th: Thread): (Sys, Event) {
    if th.stack.owner.None? || th.stack.owner.value !in s.fibers then (s, Nothing)
    else
      var g := th.stack.owner.value;
      var f := s.fibers[g];
      if f.dying || f.impl.callback.None? then (s, Nothing)
      else
        match f.impl.callback.value(th.stack.pos)
        case EndReady => CallYield(s, t, th, ToReady)
        case EndHold(reason) => CallYield(s, t, th, ToHold(reason))
        case EndReturn => (SetImpl(s, t, th, RunDone, g, Ended(f.impl, TERM)), SegmentEnded(g, TERM))
        case EndThrow => (SetImpl(s, t, th, RunCaught, g, f.impl.(exception := true)), Internal)
  }

  /** Control passes from the stack of g back to the stack that resumed it; `ret` is what is left of g's stack. */
  function SwitchOut(s: Sys, t: Tid, th: Thread, g: Fid, ret: Option<Stack>): (Sys, Event) {
    if g !in s.fibers || s.fibers[g].impl.caller.None? || !s.fibers[g].impl.caller.value.pc.ResumeAway? then
      (s, Nothing)
    else
      var f := s.fibers[g];
      var caller := f.impl.caller.value;
      (Put(s, t,
           Thread(caller.(pc := ResumeBack(caller.pc.g, caller.pc.prev, ret)), th.current, Popped(th.chain)),
           g, f.(impl := f.impl.(caller := None), place := AtTop(t))),
       Internal)
  }

  /** The switch inside `resume`: control passes into the saved context, the resuming stack becomes the caller. */
  function SwitchIn(s: Sys, t: Tid, th: Thread, g: Fid, prev: Option<Fid>): (Sys, Event)
    requires g in s.fibers
  {
    var f := s.fibers[g];
    if f.impl.context.None? then (s, Nothing)
    else
      var k := f.impl.context.value;
      (Put(s, t, Thread(k.(pc := User), th.current, th.chain + [g]),
           g, f.(impl := f.impl.(context := None, caller := Some(th.stack.(pc := ResumeAway(g, prev)))),
               place := InChain(t, |th.chain|))),
       SegmentStarted(g, k.pos))
  }

  function PutLocal(s: Sys, t: Tid, th: Thread, g: Fid, l: Local): (Sys, Event)
    requires g in s.fibers
  {
    (Put(s, t, At(th, l.pc).(current := l.current),
         g, s.fibers[g].(impl := l.impl, place := if PcFiber(l.pc).None? then Nowhere else AtTop(t))),
     l.event)
  }

  function WithoutFiber(s: Sys, t: Tid, th: Thread, g: Fid): Sys {
    s.(threads := s.threads[t := th], fibers := s.fibers - {g}, count := s.count - 1)
  }

  /** One step inside the destructor. A fresh or finished context has no frames to unwind. */
  function AdvanceDestroy(s: Sys, t: Tid, th: Thread, g: Fid): (Sys, Event)
    requires g in s.fibers
  {
    var f := s.fibers[g];
    match th.stack.pc
    case DestroyGuarded(_, prev) =>
      if f.impl.context.None? || f.impl.context.value.pc.Entry? then
        (SetImpl(s, t, th, DestroyDone(g, prev), g, f.impl.(context := None)), Internal)
      else
        (Put(s, t, Thread(f.impl.context.value.(pc := User), th.current, th.chain + [g]),
             g, f.(impl := f.impl.(context := None), unwinder := Some(th.stack.(pc := DestroyAway(g, prev))),
                   place := InChain(t, |th.chain|))),
         Internal)
    case DestroyDone(_, prev) =>
      (WithoutFiber(s, t, At(th, User).(current := prev), g), WasDestroyed(g))
    case _ => (s, Nothing)
  }

  function FinishCleanup(s: Sys, t: Tid, th: Thread): (Sys, Event) {
    if th.stack.owner.None? || th.stack.owner.value !in s.fibers then (s, Nothing)
    else
      var g := th.stack.owner.value;
      var f := s.fibers[g];
      if !f.dying || f.unwinder.None? || !f.unwinder.value.pc.DestroyAway? then (s, Nothing)
      else
        var below := f.unwinder.value;
        (Put(s, t, Thread(below.(pc := DestroyDone(below.pc.g, below.pc.prev)), th.current, Popped(th.chain)),
             g, f.(unwinder := None, place := AtTop(t))),
         Internal)
  }

  /** One step of thread t inside whatever member function it is in. */
  function AdvanceThread(s: Sys, t: Tid, th: Thread): (Sys, Event) {
    var pc := th.stack.pc;
    var owner := th.stack.owner;
    var subject := PcFiber(pc);
    if pc.YieldPublished? then SwitchOut(s, t, th, pc.g, Some(th.stack.(pc := Suspended)))
    else if (pc.RunCaught? || pc.RunDone?) && (owner.None? || owner.value !in s.fibers) then (s, Nothing)
    else if pc.RunCaught? then
      (SetImpl(s, t, th, RunDone, owner.value, Ended(s.fibers[owner.value].impl, EXCEPT)),
          SegmentEnded(owner.value, EXCEPT))
    else if pc.RunDone? then SwitchOut(s, t, th, owner.value, None)
    else if subject.None? || subject.value !in s.fibers then (s, Nothing)
    else if pc.ResumeGuarded? then SwitchIn(s, t, th, subject.value, pc.prev)
    else if pc.DestroyGuarded? || pc.DestroyDone? then AdvanceDestroy(s, t, th, subject.value)
    else if InReset(pc) then
      PutLocal(s, t, th, subject.value, ResetStep(pc, th.current, subject.value, s.fibers[subject.value].impl))
    else PutLocal(s, t, th, subject.value, ResumeStep(pc, th.current, subject.value, s.fibers[subject.value].impl))
  }

  predicate InReset(pc: Pc) {
    pc.ResetHeld? || pc.ResetCleared? || pc.ResetBuilt? || pc.ResetReasoned? || pc.ResetSuspended? || pc.ResetStored?
  }

  /** The fiber that the member function in progress works on, if its stack is not nested on the thread. */
  function PcFiber(pc: Pc): Option<Fid> {
    match pc
    case ResumeHeld(g) => Some(g)
    case ResumeExec(g) => Some(g)
    case ResumeGuarded(g, _) => Some(g)
    case ResumeBack(g, _, _) => Some(g)
    case ResumeSaved(g, _) => Some(g)
    case ResumeRead(g, _, _) => Some(g)
    case ResumeUnguarded(g, _) => Some(g)
    case ResetHeld(g, _) => Some(g)
    case ResetCleared(g, _) => Some(g)
    case ResetBuilt(g, _) => Some(g)
    case ResetReasoned(g, _) => Some(g)
    case ResetSuspended(g, _) => Some(g)
    case ResetStored(g) => Some(g)
    case DestroyGuarded(g, _) => Some(g)
    case DestroyDone(g, _) => Some(g)
    case _ => None
  }

  function WithFiber(s: Sys, body: Body): Sys {
    var g := s.lastId + 1;
    s.(lastId := g, count := s.count + 1, fibers := s.fibers[g := Fiber(Constructed(g, body), false, None, Nowhere)])
  }

  /** A rejected construction has drawn its id all the same. */
  function CallConstruct(s: Sys, body: Option<Body>): (Sys, Event) {
    if body.None? then (s.(lastId := s.lastId + 1), ConstructRejected)
    else (WithFiber(s, body.value), WasConstructed(s.lastId + 1, body.value))
  }

  /** Calling a member of a fiber that does not exist or is being destroyed breaks the caller's side of the contract
    * and is not a step. */
  function CallMember(s: Sys, t: Tid, th: Thread, g: Fid, pc: Pc): (Sys, Event) {
    if Callable(s, g) then Acquire(s, t, th, g, pc) else (s, Nothing)
  }

  function CallWake(s: Sys, g: Fid): (Sys, Event) {
    if !Callable(s, g) then (s, Nothing)
    else if s.fibers[g].impl.state != WAITING then (s, WakeIgnored(g))
    else (s.(fibers := s.fibers[g := s.fibers[g].(impl := Woken(s.fibers[g].impl))]), WokeUp(g))
  }

  function CallDestroy(s: Sys, t: Tid, th: Thread, g: Fid): (Sys, Event) {
    if !Callable(s, g) then (s, Nothing)
    else if th.current == Some(g) || s.fibers[g].impl.operating then (s.(halted := true), Terminated)
    else
      (Put(s, t, At(th, DestroyGuarded(g, th.current)).(current := Some(g)),
           g, s.fibers[g].(dying := true, place := AtTop(t))),
       Internal)
  }

  function CallStray(s: Sys, t: Tid, th: Thread, kind: YieldKind): (Sys, Event) {
    var owner := th.stack.owner;
    if owner.None? || kind == ToHold(NoReason) || (owner.value in s.fibers && s.fibers[owner.value].dying)
    then CallYield(s, t, th, kind)
    else (s, Nothing)
  }

  /** Calls from user code. */
  function Call(s: Sys, a: Action, th: Thread): (Sys, Event) {
    match a
    case Construct(t, body) => CallConstruct(s, body)
    case Resume(t, g) => CallMember(s, t, th, g, ResumeHeld(g))
    case Reset(t, g, body) => CallMember(s, t, th, g, ResetHeld(g, body))
    case Wake(t, g) => CallWake(s, g)
    case Destroy(t, g) => CallDestroy(s, t, th, g)
    case EndSegment(t) => CallEnd(s, t, th)
    case StrayYield(t, kind) => CallStray(s, t, th, kind)
    case EndCleanup(t) => FinishCleanup(s, t, th)
    case Advance(_) => (s, Nothing)
  }

  function Apply(s: Sys, a: Action): (Sys, Event) {
    if s.halted || a.t !in s.threads then (s, Nothing)
    else
      var th := s.threads[a.t];
      if a.Advance? then AdvanceThread(s, a.t, th)
      else if th.stack.pc == User then Call(s, a, th)
      else (s, Nothing)
  }

  /** The state and the events after a sequence of actions. */
  function Run(threads: set<Tid>, actions: seq<Action>): (Sys, seq<Event>) {
    if actions == [] then (Initial(threads), [])
    else
      var (s, log) := Run(threads, actions[..|actions| - 1]);
      var (s', e) := Apply(s, actions[|actions| - 1]);
      (s', log + [e])
  }
}
