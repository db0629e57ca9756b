/** What every step of the fiber protocol keeps. */
module FiberInvariant {
  import opened Options
  import opened FiberTypes
  import opened FiberSteps

  /** A fiber as its callers see it, with every operation indivisible: idle in some state, running a segment, or
    * stopped: the segment has ended with `result`, and `state` has moved on if a wake came since. */
  datatype Mode = Idle(state: State) | Busy(begun: bool) | Stopped(state: State, result: State)

  function Now(m: Mode): State {
    match m
    case Idle(state) => state
    case Busy(_) => EXEC
    case Stopped(state, _) => state
  }

  function AfterWake(m: Mode): Mode {
    match m
    case Idle(_) => Idle(READY)
    case Busy(_) => m
    case Stopped(_, result) => Stopped(READY, result)
  }

  /** What the events say about one fiber: its callback and mode and, since it was constructed or last reset, the
    * accepted resumes, the segments in the order they started and the results in the order resumes returned them;
    * and, over its whole life, the hold suspensions and the successful wakes. */
  datatype History = History(
    body: Option<Body>, mode: Mode, accepted: nat, segments: seq<nat>, results: seq<State>, holds: nat, wakes: nat)

  function Extend(h: History, g: Fid, e: Event): History {
    match e
    case WasConstructed(x, body) => if x == g then History(Some(body), Idle(INIT), 0, [], [], 0, 0) else h
    case WasReset(x, body) =>
      if x == g then h.(body := Some(body), mode := Idle(INIT), accepted := 0, segments := [], results := []) else h
    case Accepted(x) => if x == g then h.(mode := Busy(false), accepted := h.accepted + 1) else h
    case SegmentStarted(x, k) => if x == g then h.(mode := Busy(true), segments := h.segments + [k]) else h
    case SegmentEnded(x, state) =>
      if x == g then h.(mode := Stopped(state, state), holds := if state == WAITING then h.holds + 1 else h.holds)
      else h
    case Returned(x, state) => if x == g then h.(mode := Idle(Now(h.mode)), results := h.results + [state]) else h
    case WokeUp(x) => if x == g then h.(mode := AfterWake(h.mode), wakes := h.wakes + 1) else h
    case _ => h
  }

  function Summary(log: seq<Event>, g: Fid): History {
    if log == [] then History(None, Idle(INIT), 0, [], [], 0, 0)
    else Extend(Summary(log[..|log| - 1], g), g, log[|log| - 1])
  }

  function Top(chain: seq<Fid>): Option<Fid> {
    if chain == [] then None else Some(chain[|chain| - 1])
  }

  /** The CurrentFiberGuard that the activation has constructed and not yet destroyed: the fiber it set and what it
    * saved. */
  function Guard(pc: Pc): Option<(Fid, Option<Fid>)> {
    match pc
    case ResumeGuarded(g, prev) => Some((g, prev))
    case ResumeAway(g, prev) => Some((g, prev))
    case ResumeBack(g, prev, _) => Some((g, prev))
    case ResumeSaved(g, prev) => Some((g, prev))
    case ResumeRead(g, prev, _) => Some((g, prev))
    case DestroyGuarded(g, prev) => Some((g, prev))
    case DestroyAway(g, prev) => Some((g, prev))
    case DestroyDone(g, prev) => Some((g, prev))
    case _ => None
  }

  /** A continuation that control can be switched into: nothing of a resume or destruction is left on it. */
  ghost predicate Parked(g: Fid, k: Stack) {
    k.owner == Some(g) && (k.pc == Entry || k.pc == Suspended)
  }

  /** The state may run ahead of how the fiber suspended only by a wake. */
  ghost predicate Matches(state: State, suspended: State) {
    state == suspended || (state == READY && suspended == WAITING)
  }

  /** The fiber's context is where it belongs, or `ctx` is what will be assigned to it. */
  ghost predicate Stored(g: Fid, i: Impl, h: History, ctx: Option<Stack>) {
    && i.state != EXEC
    && (ctx.Some? <==> i.state == INIT || i.state == READY || i.state == WAITING)
    && (i.exception <==> i.state == EXCEPT)
    && (ctx.Some? ==> Parked(g, ctx.value) && ctx.value.pos == |h.segments| && i.callback == h.body)
    && Matches(i.state, i.suspendState)
    && i.caller == None
  }

  ghost predicate Settled(h: History) {
    h.accepted == |h.segments| == |h.results|
  }

  ghost predicate Rest(g: Fid, i: Impl, h: History) {
    && Stored(g, i, h, i.context) && Settled(h) && h.mode == Idle(i.state)
    && (if h.results == [] then i.state == INIT else i.suspendState == h.results[|h.results| - 1])
  }

  /** The fiber is on its way in: EXEC is stored and its context still in place. */
  ghost predicate Entering(g: Fid, i: Impl, h: History) {
    && i.state == EXEC && i.caller == None && !i.exception && i.callback == h.body
    && i.context.Some? && Parked(g, i.context.value) && i.context.value.pos == |h.segments| == |h.results|
    && h.accepted == |h.results| + 1 && h.mode == Busy(false)
  }

  /** The fiber is on its way out and its resume will return what its segment came to. */
  ghost predicate Leaving(g: Fid, i: Impl, h: History, ctx: Option<Stack>) {
    && h.body.Some? && h.accepted == |h.segments| == |h.results| + 1
    && Stored(g, i, h, ctx)
    && i.suspendState == Outcome(h.body.value(|h.results|)) && h.mode == Stopped(i.state, i.suspendState)
  }

  ghost predicate Rebuilding(i: Impl, ctx: Option<Stack>) {
    i.caller == None && i.context == ctx && Finished(i.state)
  }

  /** Callback, caller and context are new; the states are still those of the finished callback. */
  ghost predicate Rebound(g: Fid, i: Impl, h: History, body: Body) {
    && Rebuilding(i, Some(FreshStack(g)))
    && i.callback == Some(body) && !i.exception
    && Settled(h) && h.mode == Idle(i.state)
  }

  /** The fiber of a member function in progress whose stack is not nested on the calling thread. */
  ghost predicate HeldBy(pc: Pc, g: Fid, f: Fiber, h: History)
    requires PcFiber(pc) == Some(g)
  {
    var i := f.impl;
    && f.unwinder == None
    && f.dying == (pc.DestroyGuarded? || pc.DestroyDone?)
    && i.operating != f.dying
    && match pc
       case ResumeHeld(_) => Rest(g, i, h)
       case ResumeExec(_) => Entering(g, i, h)
       case ResumeGuarded(_, _) => Entering(g, i, h)
       case ResumeBack(_, _, ret) => i.context == None && Leaving(g, i, h, ret)
       case ResumeSaved(_, _) => Leaving(g, i, h, i.context)
       case ResumeRead(_, _, result) => Leaving(g, i, h, i.context) && result == i.suspendState
       case ResumeUnguarded(_, result) => Leaving(g, i, h, i.context) && result == i.suspendState
       case ResetHeld(_, _) => Rest(g, i, h)
       case ResetCleared(_, _) => Rebuilding(i, None) && !i.exception && Settled(h) && h.mode == Idle(i.state)
       case ResetBuilt(_, body) => Rebound(g, i, h, body)
       case ResetReasoned(_, body) => Rebound(g, i, h, body)
       case ResetSuspended(_, body) => Rebound(g, i, h, body) && i.suspendState == INIT
       case ResetStored(_) => Rest(g, i, h)
       case DestroyGuarded(_, _) => Rest(g, i, h)
       case DestroyDone(_, _) => i.state != EXEC && i.context == None && i.caller == None && h.mode.Idle?
       case _ => true
  }

  /** Activations in which the fiber that owns the stack has not begun to leave its segment. */
  ghost predicate Calm(pc: Pc) {
    !pc.YieldPublished? && !pc.RunCaught? && !pc.RunDone?
  }

  /** A fiber whose stack `k` is nested on a thread. */
  ghost predicate Active(g: Fid, f: Fiber, h: History, k: Stack) {
    var i := f.impl;
    && k.owner == Some(g)
    && i.context == None
    && i.operating != f.dying
    && if f.dying then
         i.state != EXEC && i.caller == None && Calm(k.pc) && h.mode.Idle?
       else
         && f.unwinder == None
         && h.body.Some? && h.accepted == |h.segments| == |h.results| + 1
         && match k.pc
            case YieldPublished(c) =>
              && c == g && k.pos == |h.segments| && i.callback == h.body
              && !i.exception && (i.suspendState == READY || i.suspendState == WAITING)
              && Matches(i.state, i.suspendState) && i.suspendState == Outcome(h.body.value(|h.results|))
              && h.mode == Stopped(i.state, i.suspendState)
            case RunCaught =>
              && h.mode == Busy(true) && i.state == EXEC && i.exception
              && h.body.value(|h.results|) == EndThrow
            case RunDone =>
              && Finished(i.state) && i.suspendState == i.state == Outcome(h.body.value(|h.results|))
              && (i.exception <==> i.state == EXCEPT) && h.mode == Stopped(i.state, i.suspendState)
            case _ =>
              && h.mode == Busy(true) && i.state == EXEC && !i.exception && i.callback == h.body
              && k.pos == |h.results|
  }

  /** The stack that waits beneath an active fiber's. */
  function Below(f: Fiber): Option<Stack> {
    if f.dying then f.unwinder else f.impl.caller
  }

  /** The stack of the i-th fiber nested on a thread. */
  function OwnStack(s: Sys, th: Thread, i: nat): Stack
    requires i < |th.chain|
  {
    if i + 1 < |th.chain| && th.chain[i + 1] in s.fibers && Below(s.fibers[th.chain[i + 1]]).Some?
    then Below(s.fibers[th.chain[i + 1]]).value
    else th.stack
  }

  ghost predicate Linked(g: Fid, f: Fiber, chain: seq<Fid>, i: nat)
    requires i < |chain|
  {
    var below := Top(chain[..i]);
    && Below(f).Some?
    && Below(f).value.owner == below
    && Below(f).value.pc == if f.dying then DestroyAway(g, below) else ResumeAway(g, below)
  }

  ghost predicate Scripted(h: History) {
    && |h.results| <= |h.segments| <= h.accepted <= |h.results| + 1
    && (forall k :: 0 <= k < |h.segments| ==> h.segments[k] == k)
    && (|h.results| > 0 ==> h.body.Some?)
    && (forall k :: 0 <= k < |h.results| ==> h.results[k] == Outcome(h.body.value(k)))
  }

  ghost predicate Balanced(i: Impl, h: History) {
    && h.holds == h.wakes + (if i.state == WAITING then 1 else 0)
    && (i.waitReason != NoReason <==> i.state == WAITING)
  }

  /** A fiber waits for the reason that its script gave in the segment that it ran last. */
  ghost predicate Awaits(i: Impl, h: History) {
    i.state == WAITING && i.waitReason != NoReason ==>
      && h.body.Some? && |h.segments| > 0
      && h.body.value(|h.segments| - 1) == EndHold(i.waitReason)
  }

  /** What the events say about the fiber agrees with its script and with its state. */
  ghost predicate Told(i: Impl, h: History) {
    h.body.Some? && Scripted(h) && Balanced(i, h) && Awaits(i, h)
  }

  ghost predicate Free(g: Fid, f: Fiber, h: History) {
    !f.impl.operating && !f.dying && f.unwinder == None && Rest(g, f.impl, h)
  }

  ghost predicate Placed(s: Sys, g: Fid, h: History)
    requires g in s.fibers
  {
    var f := s.fibers[g];
    match f.place
    case Nowhere => Free(g, f, h)
    case AtTop(t) =>
      && t in s.threads && PcFiber(s.threads[t].stack.pc) == Some(g)
      && HeldBy(s.threads[t].stack.pc, g, f, h)
    case InChain(t, i) =>
      && t in s.threads && i < |s.threads[t].chain| && s.threads[t].chain[i] == g
      && Linked(g, f, s.threads[t].chain, i)
      && Active(g, f, h, OwnStack(s, s.threads[t], i))
  }

  ghost predicate FiberOk(s: Sys, log: seq<Event>, g: Fid)
    requires g in s.fibers
  {
    1 <= g <= s.lastId && Told(s.fibers[g].impl, Summary(log, g)) && Placed(s, g, Summary(log, g))
  }

  /** `g_currentFiber` is the fiber of the innermost live guard, and that guard saved the next one. */
  ghost predicate CurrentOk(pc: Pc, current: Option<Fid>, top: Option<Fid>) {
    if Guard(pc).Some? then current == Some(Guard(pc).value.0) && Guard(pc).value.1 == top
    else current == top
  }

  ghost predicate Running(pc: Pc) {
    !pc.Entry? && !pc.Suspended? && !pc.ResumeAway? && !pc.DestroyAway?
  }

  ghost predicate Nested(s: Sys, t: Tid, i: nat)
    requires t in s.threads && i < |s.threads[t].chain|
  {
    var g := s.threads[t].chain[i];
    g in s.fibers && s.fibers[g].place == InChain(t, i) && Below(s.fibers[g]).Some?
  }

  ghost predicate ThreadOk(s: Sys, t: Tid)
    requires t in s.threads
  {
    var th := s.threads[t];
    var pc := th.stack.pc;
    && th.stack.owner == Top(th.chain)
    && Running(pc)
    && CurrentOk(pc, th.current, Top(th.chain))
    && (PcFiber(pc).Some? ==> PcFiber(pc).value in s.fibers && s.fibers[PcFiber(pc).value].place == AtTop(t))
    && (!Calm(pc) ==> th.chain != [])
    && (forall i :: 0 <= i < |th.chain| ==> Nested(s, t, i))
  }

  ghost predicate Inv(s: Sys, log: seq<Event>) {
    && (forall t :: t in s.threads ==> ThreadOk(s, t))
    && (forall g :: g in s.fibers ==> FiberOk(s, log, g))
    && s.count == |s.fibers|
  }
}
