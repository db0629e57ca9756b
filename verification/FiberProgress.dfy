/** What the operations on a fiber come to: no call waits for another thread, and each has its whole effect on the
  * fields when no other step comes between its own. */
module FiberProgress {
  import opened Options
  import opened FiberTypes
  import opened FiberSteps
  import opened FiberInvariant
  import opened FiberPreservation
  import opened FiberTheorems

  // ---- Wakes and wait reasons ----

  /** A wake of a waiting fiber takes effect, whoever is inside an operation on that fiber; any other is ignored. */
  lemma WakeDecides(threads: set<Tid>, actions: seq<Action>, u: Tid, g: Fid)
    requires var s := Run(threads, actions).0;
             && u in s.threads && s.threads[u].stack.pc == User && !s.halted && g in s.fibers && !s.fibers[g].dying
    ensures var s := Run(threads, actions).0;
            var f := s.fibers[g];
            Apply(s, Wake(u, g)) ==
            if f.impl.state == WAITING then
              (s.(fibers := s.fibers[g := f.(impl := f.impl.(state := READY, waitReason := NoReason))]), WokeUp(g))
            else (s, WakeIgnored(g))
  {
    hide Run;
  }

  /** A waiting fiber waits for the reason that its script gave where the last segment started ended; any other has no
    * wait reason. */
  lemma WaitReasonIsScripted(threads: set<Tid>, actions: seq<Action>, g: Fid)
    requires g in Run(threads, actions).0.fibers
    ensures var (s, log) := Run(threads, actions);
            var i, h := s.fibers[g].impl, Summary(log, g);
            if i.state == WAITING then
              && i.waitReason != NoReason && h.body.Some? && |h.segments| > 0
              && h.body.value(|h.segments| - 1) == EndHold(i.waitReason)
            else i.waitReason == NoReason
  {
    hide Run, Inv, Placed, Scripted, Summary;
    Always(threads, actions);
    InvFiber(Run(threads, actions).0, Run(threads, actions).1, g);
  }

  // ---- No operation waits for another thread ----

  /** How many more steps of its own a thread is from its own code, the callback's or the cleanup's. */
  function Left(pc: Pc): nat {
    match pc
    case ResumeHeld(_) => 3
    case ResumeExec(_) => 2
    case ResumeGuarded(_, _) => 1
    case RunCaught => 6
    case RunDone => 5
    case YieldPublished(_) => 5
    case ResumeBack(_, _, _) => 4
    case ResumeSaved(_, _) => 3
    case ResumeRead(_, _, _) => 2
    case ResumeUnguarded(_, _) => 1
    case ResetHeld(_, _) => 6
    case ResetCleared(_, _) => 5
    case ResetBuilt(_, _) => 4
    case ResetReasoned(_, _) => 3
    case ResetSuspended(_, _) => 2
    case ResetStored(_) => 1
    case DestroyGuarded(_, _) => 2
    case DestroyDone(_, _) => 1
    case _ => 0
  }

  /** A thread inside a member function can take its next step, whatever the other threads are doing. */
  lemma StepProgresses(s: Sys, log: seq<Event>, t: Tid)
    requires Inv(s, log) && t in s.threads && !s.halted && s.threads[t].stack.pc != User
    ensures var s' := Apply(s, Advance(t)).0;
            t in s'.threads && Left(s'.threads[t].stack.pc) < Left(s.threads[t].stack.pc)
  {
    hide Inv, Apply, Left;
    var pc := s.threads[t].stack.pc;
    if !Calm(pc) {
      LeavingProgresses(s, log, t);
    } else {
      HoldingProgresses(s, log, t);
    }
  }

  lemma HoldingProgresses(s: Sys, log: seq<Event>, t: Tid)
    requires Inv(s, log) && t in s.threads && !s.halted && s.threads[t].stack.pc != User
    requires Calm(s.threads[t].stack.pc)
    ensures var s' := Apply(s, Advance(t)).0;
            t in s'.threads && Left(s'.threads[t].stack.pc) < Left(s.threads[t].stack.pc)
  {
    hide Inv, Summary, Told, Linked, Parked, Matches, Settled, ResumeStep, ResetStep, Left;
    InvThread(s, log, t);
    var pc := s.threads[t].stack.pc;
    var g := PcFiber(pc).value;
    HeldFiber(s, log, t, g);
    LeftShrinks(pc, s.threads[t].current, g, s.fibers[g].impl);
  }

  lemma LeftShrinks(pc: Pc, current: Option<Fid>, g: Fid, i: Impl)
    requires PcFiber(pc).Some?
    ensures Left(User) == 0 < Left(pc)
    ensures InResume(pc) || InReset(pc) ==> Left(MemberStep(pc, current, g, i).pc) < Left(pc)
    ensures pc.DestroyGuarded? ==> Left(DestroyDone(pc.g, pc.prev)) < Left(pc)
  {
  }

  lemma LeavingProgresses(s: Sys, log: seq<Event>, t: Tid)
    requires Inv(s, log) && t in s.threads && !s.halted && !Calm(s.threads[t].stack.pc)
    ensures var s' := Apply(s, Advance(t)).0;
            t in s'.threads && Left(s'.threads[t].stack.pc) < Left(s.threads[t].stack.pc)
  {
    hide Inv, Summary, Told;
    InvThread(s, log, t);
    RunningFiber(s, log, t);
  }

  /** A step takes a thread nearer to its own code if it is its own turn, and otherwise leaves it alone. */
  lemma TurnTaken(s: Sys, log: seq<Event>, a: Action, t: Tid)
    requires Inv(s, log) && t in s.threads && !s.halted && s.threads[t].stack.pc != User
    ensures var s' := Apply(s, a).0;
            t in s'.threads
            && Left(s'.threads[t].stack.pc) + (if a == Advance(t) then 1 else 0) <= Left(s.threads[t].stack.pc)
  {
    hide Inv, Left, AdvanceThread, Call;
    if a == Advance(t) {
      StepProgresses(s, log, t);
    } else {
      OthersStay(s, a, t);
    }
  }

  lemma OthersStay(s: Sys, a: Action, t: Tid)
    requires t in s.threads && a != Advance(t) && s.threads[t].stack.pc != User
    ensures var s' := Apply(s, a).0; t in s'.threads && s'.threads[t] == s.threads[t]
  {
  }

  lemma ThreadStays(s: Sys, a: Action, t: Tid)
    requires t in s.threads
    ensures t in Apply(s, a).0.threads
    ensures s.halted ==> Apply(s, a).0 == s
  {
  }

  lemma {:induction false} ThreadsStay(threads: set<Tid>, actions: seq<Action>, t: Tid)
    requires t in threads
    ensures t in Run(threads, actions).0.threads
  {
    hide Apply;
    if actions != [] {
      ThreadsStay(threads, actions[..|actions| - 1], t);
      ThreadStays(Run(threads, actions[..|actions| - 1]).0, actions[|actions| - 1], t);
    }
  }

  /** How often a thread is given a step inside a member function. */
  function Turns(actions: seq<Action>, t: Tid): nat {
    if actions == [] then 0
    else Turns(actions[..|actions| - 1], t) + if actions[|actions| - 1] == Advance(t) then 1 else 0
  }

  ghost predicate InOwnCode(s: Sys, t: Tid) {
    t in s.threads && s.threads[t].stack.pc == User
  }

  /** From any point of any run, a thread that is given six steps gets out of the member function that it is in, by a
    * return, an exception or the switch into a callback, in whatever order the other threads take theirs. */
  lemma OperationsFinish(threads: set<Tid>, actions: seq<Action>, more: seq<Action>, t: Tid)
    requires t in threads && Turns(more, t) >= 6 && !Run(threads, actions + more).0.halted
    ensures exists n :: 0 <= n <= |more| && InOwnCode(Run(threads, actions + more[..n]).0, t)
  {
    hide Run, Inv;
    TurnsCount(threads, actions, more, t);
    Always(threads, actions + more);
    InvThread(Run(threads, actions + more).0, Run(threads, actions + more).1, t);
    assert more[..|more|] == more;
  }

  ghost predicate OwnCodeWithin(threads: set<Tid>, actions: seq<Action>, more: seq<Action>, t: Tid) {
    exists n :: 0 <= n <= |more| && InOwnCode(Run(threads, actions + more[..n]).0, t)
  }

  lemma {:induction false} TurnsCount(threads: set<Tid>, actions: seq<Action>, more: seq<Action>, t: Tid)
    requires t in threads && !Run(threads, actions + more).0.halted
    ensures t in Run(threads, actions + more).0.threads
    ensures OwnCodeWithin(threads, actions, more, t)
            || Left(Run(threads, actions + more).0.threads[t].stack.pc) + Turns(more, t) <= 6
  {
    hide OwnCodeWithin, Apply, Inv;
    if more == [] {
      ThreadsStay(threads, actions, t);
      assert actions + more == actions;
    } else {
      var front, a := more[..|more| - 1], more[|more| - 1];
      assert (actions + more)[..|actions + more| - 1] == actions + front;
      var (s, log) := Run(threads, actions + front);
      ThreadsStay(threads, actions + front, t);
      ThreadStays(s, a, t);
      TurnsCount(threads, actions, front, t);
      if OwnCodeWithin(threads, actions, front, t) {
        WithinMore(threads, actions, more, t);
      } else if InOwnCode(s, t) {
        FoundWithin(threads, actions, more, |front|, t);
      } else {
        Always(threads, actions + front);
        TurnTaken(s, log, a, t);
      }
    }
  }

  lemma FoundWithin(threads: set<Tid>, actions: seq<Action>, more: seq<Action>, n: nat, t: Tid)
    requires n <= |more| && InOwnCode(Run(threads, actions + more[..n]).0, t)
    ensures OwnCodeWithin(threads, actions, more, t)
  {
  }

  lemma WithinMore(threads: set<Tid>, actions: seq<Action>, more: seq<Action>, t: Tid)
    requires more != [] && OwnCodeWithin(threads, actions, more[..|more| - 1], t)
    ensures OwnCodeWithin(threads, actions, more, t)
  {
    hide Run;
    var front := more[..|more| - 1];
    var n :| 0 <= n <= |front| && InOwnCode(Run(threads, actions + front[..n]).0, t);
    assert front[..n] == more[..n];
  }

  // ---- What an undisturbed operation comes to ----

  /** n steps of one thread and no others: the state and the last event. */
  function Onward(s: Sys, t: Tid, n: nat): (Sys, Event)
    requires n > 0
  {
    if n == 1 then Apply(s, Advance(t)) else Apply(Onward(s, t, n - 1).0, Advance(t))
  }

  /** The fields once a segment has ended and its resume has come back; it started at position k. */
  function Rested(g: Fid, callback: Option<Body>, k: nat, end: SegmentEnd): Impl {
    match end
    case EndReady => Impl(READY, READY, NoReason, false, false, callback, None, Some(Stack(Some(g), Suspended, k + 1)))
    case EndHold(r) => Impl(WAITING, WAITING, r, false, false, callback, None, Some(Stack(Some(g), Suspended, k + 1)))
    case EndReturn => Impl(TERM, TERM, NoReason, false, false, None, None, None)
    case EndThrow => Impl(EXCEPT, EXCEPT, NoReason, false, true, None, None, None)
  }

  /** A later change of the same thread and fiber replaces an earlier one. */
  lemma PutPut(s: Sys, t: Tid, th: Thread, g: Fid, f: Fiber, th': Thread, f': Fiber)
    ensures Put(Put(s, t, th, g, f), t, th', g, f') == Put(s, t, th', g, f')
  {
    assert s.threads[t := th][t := th'] == s.threads[t := th'];
    assert s.fibers[g := f][g := f'] == s.fibers[g := f'];
  }

  /** One step inside `resume` or `reset`, from a state given by the thread and the fiber that it touches. */
  lemma MemberAdvances(s: Sys, t: Tid, th: Thread, g: Fid, f: Fiber, l: Local)
    requires !s.halted && PcFiber(th.stack.pc) == Some(g) && (InResume(th.stack.pc) || InReset(th.stack.pc))
    requires l == MemberStep(th.stack.pc, th.current, g, f.impl)
    ensures Apply(Put(s, t, th, g, f), Advance(t))
         == (Put(s, t, At(th, l.pc).(current := l.current), g,
                 f.(impl := l.impl, place := if PcFiber(l.pc).None? then Nowhere else AtTop(t))),
             l.event)
  {
    hide ResetStep, ResumeStep;
    PutPut(s, t, th, g, f, At(th, l.pc).(current := l.current),
        f.(impl := l.impl, place := if PcFiber(l.pc).None? then Nowhere else AtTop(t)));
  }

  /** Thread t is in its own code and no operation on g is in progress. */
  ghost predicate AtHand(s: Sys, t: Tid, g: Fid) {
    && !s.halted && t in s.threads && s.threads[t].stack.pc == User
    && g in s.fibers && !s.fibers[g].impl.operating && !s.fibers[g].dying
  }

  function EntryThread(th: Thread, g: Fid, k: Stack): Thread {
    Thread(k.(pc := User), Some(g), th.chain + [g])
  }

  function EntryFiber(th: Thread, g: Fid, f: Fiber, t: Tid): Fiber {
    Fiber(Impl(EXEC, f.impl.suspendState, f.impl.waitReason, true, f.impl.exception, f.impl.callback,
               Some(th.stack.(pc := ResumeAway(g, th.current))), None),
          false, f.unwinder, InChain(t, |th.chain|))
  }

  /** Four steps lead from the call into the callback. */
  lemma Enters(s: Sys, t: Tid, g: Fid)
    requires AtHand(s, t, g) && s.fibers[g].impl.context.Some?
    requires s.fibers[g].impl.state == INIT || s.fibers[g].impl.state == READY
    ensures var th, f := s.threads[t], s.fibers[g];
            Onward(Apply(s, Resume(t, g)).0, t, 3) ==
            (Put(s, t, EntryThread(th, g, f.impl.context.value), g, EntryFiber(th, g, f, t)),
             SegmentStarted(g, f.impl.context.value.pos))
  {
    var th, f := s.threads[t], s.fibers[g];
    var f1 := f.(impl := f.impl.(operating := true), place := AtTop(t));
    var f2 := f1.(impl := f1.impl.(state := EXEC));
    var th1, th2 := At(th, ResumeHeld(g)), At(th, ResumeExec(g));
    var th3 := At(th, ResumeGuarded(g, th.current)).(current := Some(g));
    var s3 := Put(s, t, th3, g, f2);
    assert Apply(s, Resume(t, g)).0 == Put(s, t, th1, g, f1);
    MemberAdvances(s, t, th1, g, f1, Local(ResumeExec(g), th.current, f2.impl, Accepted(g)));
    MemberAdvances(s, t, th2, g, f2, Local(th3.stack.pc, Some(g), f2.impl, Internal));
    assert Onward(Apply(s, Resume(t, g)).0, t, 2).0 == s3;
    EntersLast(s, t, th3, g, f2, th);
  }

  lemma EntersLast(s: Sys, t: Tid, th3: Thread, g: Fid, f: Fiber, th: Thread)
    requires !s.halted && !f.dying && f.impl.context.Some? && f.impl.state == EXEC && f.impl.operating
    requires th3 == At(th, ResumeGuarded(g, th.current)).(current := Some(g))
    ensures Apply(Put(s, t, th3, g, f), Advance(t))
         == (Put(s, t, EntryThread(th, g, f.impl.context.value), g, EntryFiber(th, g, f, t)),
             SegmentStarted(g, f.impl.context.value.pos))
  {
    PutPut(s, t, th3, g, f, EntryThread(th, g, f.impl.context.value), EntryFiber(th, g, f, t));
  }

  /** The fields while a segment that has ended is still on the stack. */
  ghost predicate Leaves(th: Thread, g: Fid, f: Fiber, caller: Stack, prev: Option<Fid>) {
    && !f.dying && f.impl.caller == Some(caller.(pc := ResumeAway(g, prev))) && caller.pc == User
    && th.current == Some(g)
    && (th.stack.pc == YieldPublished(g) || (th.stack.pc == RunDone && th.stack.owner == Some(g)))
  }

  function LeftFiber(th: Thread, f: Fiber): Fiber {
    var i := f.impl;
    Fiber(Impl(i.state, i.suspendState, i.waitReason, false, i.exception, i.callback, None,
               if th.stack.pc == RunDone then None else Some(th.stack.(pc := Suspended))),
          f.dying, f.unwinder, Nowhere)
  }

  /** Five steps lead from the end of a segment back to whoever resumed. */
  lemma ComesBack(s: Sys, t: Tid, th: Thread, g: Fid, f: Fiber, caller: Stack, prev: Option<Fid>)
    requires !s.halted && Leaves(th, g, f, caller, prev)
    ensures Onward(Put(s, t, th, g, f), t, 5) ==
            (Put(s, t, Thread(caller, prev, Popped(th.chain)), g, LeftFiber(th, f)), Returned(g, f.impl.suspendState))
  {
    hide Apply, Popped;
    var ret := if th.stack.pc == RunDone then None else Some(th.stack.(pc := Suspended));
    var f1 := f.(impl := f.impl.(caller := None), place := AtTop(t));
    var f2 := f1.(impl := f1.impl.(context := ret));
    var back := Thread(caller.(pc := ResumeBack(g, prev, ret)), Some(g), Popped(th.chain));
    SwitchesBack(s, t, th, g, f, caller, prev);
    MemberAdvances(s, t, back, g, f1, Local(ResumeSaved(g, prev), Some(g), f2.impl, Internal));
    Concludes(s, t, At(back, ResumeSaved(g, prev)), g, f2, prev);
    OnwardAfter(Put(s, t, th, g, f), t, 4);
    OnwardAfter(Put(s, t, back, g, f1), t, 3);
  }

  /** The last three steps of `resume`: the suspend state is read, the guards are released. */
  lemma Concludes(s: Sys, t: Tid, th: Thread, g: Fid, f: Fiber, prev: Option<Fid>)
    requires !s.halted && th.stack.pc == ResumeSaved(g, prev) && th.current == Some(g) && f.place == AtTop(t)
    ensures Onward(Put(s, t, th, g, f), t, 3) ==
            (Put(s, t, At(th, User).(current := prev), g, f.(impl := f.impl.(operating := false), place := Nowhere)),
             Returned(g, f.impl.suspendState))
  {
    hide Apply;
    var i := f.impl;
    var th1, th2 := At(th, ResumeRead(g, prev, i.suspendState)), At(th, ResumeUnguarded(g, i.suspendState));
    MemberAdvances(s, t, th, g, f, Local(th1.stack.pc, Some(g), i, Internal));
    MemberAdvances(s, t, th1, g, f, Local(th2.stack.pc, prev, i, Internal));
    MemberAdvances(s, t, th2.(current := prev), g, f,
        Local(User, prev, i.(operating := false), Returned(g, i.suspendState)));
    OnwardAfter(Put(s, t, th, g, f), t, 2);
    OnwardAfter(Put(s, t, th1, g, f), t, 1);
  }

  lemma SwitchesBack(s: Sys, t: Tid, th: Thread, g: Fid, f: Fiber, caller: Stack, prev: Option<Fid>)
    requires !s.halted && Leaves(th, g, f, caller, prev)
    ensures var ret := if th.stack.pc == RunDone then None else Some(th.stack.(pc := Suspended));
            Apply(Put(s, t, th, g, f), Advance(t)).0 ==
            Put(s, t, Thread(caller.(pc := ResumeBack(g, prev, ret)), Some(g), Popped(th.chain)),
                g, f.(impl := f.impl.(caller := None), place := AtTop(t)))
  {
    hide Popped;
    var ret := if th.stack.pc == RunDone then None else Some(th.stack.(pc := Suspended));
    PutPut(s, t, th, g, f, Thread(caller.(pc := ResumeBack(g, prev, ret)), Some(g), Popped(th.chain)),
        f.(impl := f.impl.(caller := None), place := AtTop(t)));
  }

  /** Where the code stands right after the end of a segment: behind the critical section of `yield` or of `run`, or,
    * for an exception, before the latter. */
  function EndStack(g: Fid, k: Stack, end: SegmentEnd): Stack {
    match end
    case EndReady => Stack(Some(g), YieldPublished(g), k.pos + 1)
    case EndHold(_) => Stack(Some(g), YieldPublished(g), k.pos + 1)
    case EndReturn => Stack(Some(g), RunDone, k.pos)
    case EndThrow => Stack(Some(g), RunCaught, k.pos)
  }

  function EndImpl(i: Impl, end: SegmentEnd): Impl {
    match end
    case EndReady => i.(state := READY, suspendState := READY, waitReason := NoReason)
    case EndHold(r) => i.(state := WAITING, suspendState := WAITING, waitReason := r)
    case EndReturn => i.(callback := None, state := TERM, suspendState := TERM, waitReason := NoReason)
    case EndThrow => i.(exception := true)
  }

  function EndEvent(g: Fid, end: SegmentEnd): Event {
    match end
    case EndReady => SegmentEnded(g, READY)
    case EndHold(_) => SegmentEnded(g, WAITING)
    case EndReturn => SegmentEnded(g, TERM)
    case EndThrow => Internal
  }

  lemma Ends(s: Sys, t: Tid, th: Thread, g: Fid, f: Fiber, body: Body)
    requires !s.halted && th.stack.pc == User && th.stack.owner == th.current == Some(g)
    requires !f.dying && f.impl.state == EXEC && f.impl.caller.Some? && f.impl.callback == Some(body)
    ensures var end := body(th.stack.pos);
            Apply(Put(s, t, th, g, f), EndSegment(t)) ==
            (Put(s, t, th.(stack := EndStack(g, th.stack, end)), g, f.(impl := EndImpl(f.impl, end))),
             EndEvent(g, end))
  {
    var end := body(th.stack.pos);
    PutPut(s, t, th, g, f, th.(stack := EndStack(g, th.stack, end)), f.(impl := EndImpl(f.impl, end)));
  }

  /** A callback that comes to the end of a segment does what its script says next, whatever has been interleaved. */
  lemma SegmentEnds(threads: set<Tid>, actions: seq<Action>, t: Tid)
    requires var s := Run(threads, actions).0;
             && !s.halted && t in s.threads && s.threads[t].stack.pc == User && s.threads[t].current.Some?
             && var g := s.threads[t].current.value; g in s.fibers && !s.fibers[g].dying
    ensures var (s, log) := Run(threads, actions);
            var th := s.threads[t];
            var g := th.current.value;
            var f, h := s.fibers[g], Summary(log, g);
            && h.body.Some?
            && var end := h.body.value(|h.results|);
               Apply(s, EndSegment(t)) ==
               (Put(s, t, th.(stack := EndStack(g, th.stack, end)), g, f.(impl := EndImpl(f.impl, end))),
                EndEvent(g, end))
  {
    hide Run, Inv, Apply, Summary, Told;
    var (s, log) := Run(threads, actions);
    var th, g := s.threads[t], s.threads[t].current.value;
    Always(threads, actions);
    UserCode(s, log, t);
    Ends(s, t, th, g, s.fibers[g], Summary(log, g).body.value);
    assert s.threads[t := th] == s.threads && s.fibers[g := s.fibers[g]] == s.fibers;
  }

  lemma Catches(s: Sys, t: Tid, th: Thread, g: Fid, f: Fiber)
    requires !s.halted && th.stack.pc == RunCaught && th.stack.owner == Some(g)
    ensures Apply(Put(s, t, th, g, f), Advance(t)).0 ==
            Put(s, t, At(th, RunDone), g, f.(impl := f.impl.(callback := None, state := EXCEPT, suspendState := EXCEPT,
                                                             waitReason := NoReason)))
  {
    var s' := Apply(Put(s, t, th, g, f), Advance(t)).0;
    PutPut(s, t, th, g, f, s'.threads[t], s'.fibers[g]);
  }

  lemma OnwardOnce(s: Sys, t: Tid)
    ensures Onward(s, t, 1) == Apply(s, Advance(t))
  {
    hide Apply;
  }

  lemma {:induction false} OnwardAfter(s: Sys, t: Tid, n: nat)
    requires n > 0
    ensures Onward(s, t, n + 1) == Onward(Apply(s, Advance(t)).0, t, n)
  {
    hide Apply;
    if n > 1 {
      OnwardAfter(s, t, n - 1);
    }
  }

  /** How many steps lead from the end of a segment back to its resume: an exception is stored first. */
  function WayBack(end: SegmentEnd): nat {
    if end.EndThrow? then 6 else 5
  }

  /** A callback that runs to the end of a segment, and the way back from there. */
  lemma SegmentReturns(s: Sys, t: Tid, th: Thread, g: Fid, f: Fiber, body: Body, caller: Stack, prev: Option<Fid>)
    requires !s.halted && th.stack.pc == User && th.stack.owner == th.current == Some(g) && caller.pc == User
    requires !f.dying && f.impl.state == EXEC && !f.impl.exception && f.impl.callback == Some(body)
    requires f.impl.caller == Some(caller.(pc := ResumeAway(g, prev)))
    ensures var end := body(th.stack.pos);
            var rested := Rested(g, Some(body), th.stack.pos, end);
            Onward(Apply(Put(s, t, th, g, f), EndSegment(t)).0, t, WayBack(end)) ==
            (Put(s, t, Thread(caller, prev, Popped(th.chain)), g, Fiber(rested, false, f.unwinder, Nowhere)),
             Returned(g, rested.state))
  {
    hide Apply, Onward, Popped, Put;
    var end, s0 := body(th.stack.pos), Apply(Put(s, t, th, g, f), EndSegment(t)).0;
    var out, f1 := th.(stack := EndStack(g, th.stack, end)), f.(impl := EndImpl(f.impl, end));
    Ends(s, t, th, g, f, body);
    if end.EndThrow? {
      var f2 := f.(impl := f1.impl.(callback := None, state := EXCEPT, suspendState := EXCEPT, waitReason := NoReason));
      Catches(s, t, out, g, f1);
      ComesBack(s, t, At(out, RunDone), g, f2, caller, prev);
      OnwardAfter(s0, t, 5);
    } else {
      ComesBack(s, t, out, g, f1, caller, prev);
    }
  }

  /** A fiber that can be resumed, as the invariant describes it. */
  ghost predicate Awaiting(g: Fid, i: Impl, h: History) {
    && h.body.Some? && i.callback == h.body && !i.exception && i.caller == None && !i.operating
    && i.context.Some? && i.context.value.owner == Some(g) && i.context.value.pos == |h.results|
  }

  lemma RestAwaits(g: Fid, f: Fiber, h: History)
    requires Free(g, f, h) && Told(f.impl, h) && (f.impl.state == INIT || f.impl.state == READY)
    ensures Awaiting(g, f.impl, h) && f.unwinder == None
  {
  }

  /** The thread is back where it was, nothing but the fiber has changed, and its fields are those that the end of the
    * segment asks for. */
  ghost predicate ResumesWhole(s: Sys, h: History, t: Tid, g: Fid) {
    var entered := Onward(Apply(s, Resume(t, g)).0, t, 3);
    && h.body.Some? && g in s.fibers && entered.1 == SegmentStarted(g, |h.results|)
    && var end := h.body.value(|h.results|);
       var rested := Rested(g, h.body, |h.results|, end);
       Onward(Apply(entered.0, EndSegment(t)).0, t, WayBack(end)) ==
       (s.(fibers := s.fibers[g := s.fibers[g].(impl := rested)]), Returned(g, rested.state))
  }

  /** The whole of an undisturbed resume. */
  lemma ResumeComesBack(threads: set<Tid>, actions: seq<Action>, t: Tid, g: Fid)
    requires var s := Run(threads, actions).0;
             AtHand(s, t, g) && (s.fibers[g].impl.state == INIT || s.fibers[g].impl.state == READY)
    ensures ResumesWhole(Run(threads, actions).0, Summary(Run(threads, actions).1, g), t, g)
  {
    hide Run, Inv, ResumesWhole;
    Always(threads, actions);
    InvComesBack(Run(threads, actions).0, Run(threads, actions).1, t, g);
  }

  lemma InvComesBack(s: Sys, log: seq<Event>, t: Tid, g: Fid)
    requires Inv(s, log) && AtHand(s, t, g) && (s.fibers[g].impl.state == INIT || s.fibers[g].impl.state == READY)
    ensures ResumesWhole(s, Summary(log, g), t, g)
  {
    hide Inv, Apply, Onward, Summary, Free, Told, Rested;
    FreeToTake(s, log, t, g);
    var th, f, h := s.threads[t], s.fibers[g], Summary(log, g);
    RestAwaits(g, f, h);
    Enters(s, t, g);
    var inside := EntryThread(th, g, f.impl.context.value);
    SegmentReturns(s, t, inside, g, EntryFiber(th, g, f, t), h.body.value, th.stack, th.current);
    assert Popped(th.chain + [g]) == th.chain;
    assert s.threads[t := th] == s.threads;
  }

  // ---- reset, destruction and construction

  /** A fiber as the constructor leaves it. */
  function Fresh(g: Fid, body: Body): Impl {
    Impl(INIT, INIT, NoReason, false, false, Some(body), None, Some(Stack(Some(g), Entry, 0)))
  }

  /** The whole of an undisturbed reset of a finished fiber: it is as if constructed anew. */
  lemma ResetStartsAnew(threads: set<Tid>, actions: seq<Action>, t: Tid, g: Fid, body: Body)
    requires var s := Run(threads, actions).0;
             AtHand(s, t, g) && (s.fibers[g].impl.state == TERM || s.fibers[g].impl.state == EXCEPT)
    ensures var s := Run(threads, actions).0;
            var held := Apply(s, Reset(t, g, Some(body))).0;
            && Onward(held, t, 5).1 == WasReset(g, body)
            && Onward(held, t, 6).0 == s.(fibers := s.fibers[g := s.fibers[g].(impl := Fresh(g, body))])
  {
    hide Run, Inv, Apply, Onward;
    var (s, log) := Run(threads, actions);
    Always(threads, actions);
    FreeToTake(s, log, t, g);
    NotCurrent(s, log, t, g);
    Resets(s, t, g, body);
  }

  lemma Resets(s: Sys, t: Tid, g: Fid, body: Body)
    requires AtHand(s, t, g) && (s.fibers[g].impl.state == TERM || s.fibers[g].impl.state == EXCEPT)
    requires s.fibers[g].place == Nowhere && s.threads[t].current != Some(g)
    ensures var held := Apply(s, Reset(t, g, Some(body))).0;
            && Onward(held, t, 5).1 == WasReset(g, body)
            && Onward(held, t, 6).0 == s.(fibers := s.fibers[g := s.fibers[g].(impl := Fresh(g, body))])
  {
    hide Apply, Onward;
    var th, f := s.threads[t], s.fibers[g];
    var f1 := f.(impl := f.impl.(operating := true), place := AtTop(t));
    Acquires(s, t, g, body);
    Rebinds(s, t, th, g, f1, body, 2);
    Rebinds(s, t, th, g, f1, body, 3);
    Restores(s, t, At(th, ResetReasoned(g, body)), g, ReboundFiber(g, f1, body), body);
    assert s.threads[t := th] == s.threads;
  }

  function ReboundFiber(g: Fid, f: Fiber, body: Body): Fiber {
    f.(impl := Impl(f.impl.state, f.impl.suspendState, NoReason, f.impl.operating, false, Some(body), None,
                    Some(Stack(Some(g), Entry, 0))))
  }

  /** The first three steps of `reset`. */
  lemma Rebinds(s: Sys, t: Tid, th: Thread, g: Fid, f: Fiber, body: Body, n: nat)
    requires !s.halted && (f.impl.state == TERM || f.impl.state == EXCEPT) && f.place == AtTop(t)
    requires n > 0 && th.current != Some(g)
    ensures Onward(Put(s, t, At(th, ResetHeld(g, Some(body))), g, f), t, n + 3) ==
            Onward(Put(s, t, At(th, ResetReasoned(g, body)), g, ReboundFiber(g, f, body)), t, n)
  {
    hide Apply, Onward;
    var th1, th2, th3 := At(th, ResetHeld(g, Some(body))), At(th, ResetCleared(g, body)), At(th, ResetBuilt(g, body));
    var f2 := f.(impl := f.impl.(exception := false));
    var f4 := ReboundFiber(g, f, body);
    var f3 := f4.(impl := f4.impl.(waitReason := f.impl.waitReason));
    MemberAdvances(s, t, th1, g, f, Local(th2.stack.pc, th.current, f2.impl, Internal));
    MemberAdvances(s, t, th2, g, f2, Local(th3.stack.pc, th.current, f3.impl, Internal));
    MemberAdvances(s, t, th3, g, f3, Local(ResetReasoned(g, body), th.current, f4.impl, Internal));
    OnwardAfter(Put(s, t, th1, g, f), t, n + 2);
    OnwardAfter(Put(s, t, th2, g, f2), t, n + 1);
    OnwardAfter(Put(s, t, th3, g, f3), t, n);
  }

  lemma Acquires(s: Sys, t: Tid, g: Fid, body: Body)
    requires AtHand(s, t, g)
    ensures var f := s.fibers[g];
            Apply(s, Reset(t, g, Some(body))).0 ==
            Put(s, t, At(s.threads[t], ResetHeld(g, Some(body))), g,
                f.(impl := f.impl.(operating := true), place := AtTop(t)))
  {
  }

  /** The last three steps of `reset`. */
  lemma Restores(s: Sys, t: Tid, th: Thread, g: Fid, f: Fiber, body: Body)
    requires !s.halted && th.stack.pc == ResetReasoned(g, body) && f.place == AtTop(t) && f.impl.operating
    ensures var s0 := Put(s, t, th, g, f);
            && Onward(s0, t, 2).1 == WasReset(g, body)
            && Onward(s0, t, 3).0 ==
               Put(s, t, At(th, User), g,
                   f.(impl := f.impl.(suspendState := INIT, state := INIT, operating := false), place := Nowhere))
  {
    hide Apply, Onward;
    var i1 := f.impl.(suspendState := INIT);
    var i2 := i1.(state := INIT);
    var th1, th2 := At(th, ResetSuspended(g, body)), At(th, ResetStored(g));
    MemberAdvances(s, t, th, g, f, Local(th1.stack.pc, th.current, i1, Internal));
    MemberAdvances(s, t, th1, g, f.(impl := i1), Local(th2.stack.pc, th.current, i2, WasReset(g, body)));
    MemberAdvances(s, t, th2, g, f.(impl := i2), Local(User, th.current, i2.(operating := false), Internal));
    OnwardAfter(Put(s, t, th, g, f), t, 1);
    OnwardOnce(Put(s, t, th1, g, f.(impl := i1)), t);
    OnwardAfter(Put(s, t, th, g, f), t, 2);
    OnwardAfter(Put(s, t, th1, g, f.(impl := i1)), t, 1);
    OnwardOnce(Put(s, t, th2, g, f.(impl := i2)), t);
  }

  /** What is left once the destructor is through. */
  function Gone(s: Sys, g: Fid): Sys {
    s.(fibers := s.fibers - {g}, count := s.count - 1)
  }

  /** What a destructor comes to. The current fiber and one that an operation is in progress on end the process. Any
    * other is gone in the end, the local objects of a suspended stack having been destroyed on that stack with the
    * dying fiber as the current one. */
  lemma DestructionDecides(threads: set<Tid>, actions: seq<Action>, t: Tid, g: Fid)
    requires var s := Run(threads, actions).0;
             && !s.halted && t in s.threads && s.threads[t].stack.pc == User && g in s.fibers && !s.fibers[g].dying
    ensures var s := Run(threads, actions).0;
            var i, begun := s.fibers[g].impl, Apply(s, Destroy(t, g));
            var gone := (Gone(s, g), WasDestroyed(g));
            if s.threads[t].current == Some(g) || i.operating then begun == (s.(halted := true), Terminated)
            else if i.context.None? || i.context.value.pc == Entry then Onward(begun.0, t, 2) == gone
            else
              var unwinding := Apply(begun.0, Advance(t)).0;
              && t in unwinding.threads && unwinding.threads[t].current == Some(g)
              && unwinding.threads[t].stack == i.context.value.(pc := User)
              && Apply(Apply(unwinding, EndCleanup(t)).0, Advance(t)) == gone
  {
    hide Run, Inv, Apply, Onward;
    var (s, log) := Run(threads, actions);
    Always(threads, actions);
    if s.threads[t].current == Some(g) || s.fibers[g].impl.operating {
      Terminates(s, t, g);
    } else {
      FreeToTake(s, log, t, g);
      Destroys(s, t, g);
    }
  }

  lemma Terminates(s: Sys, t: Tid, g: Fid)
    requires !s.halted && t in s.threads && s.threads[t].stack.pc == User && g in s.fibers && !s.fibers[g].dying
    requires s.threads[t].current == Some(g) || s.fibers[g].impl.operating
    ensures Apply(s, Destroy(t, g)) == (s.(halted := true), Terminated)
  {
  }

  lemma Removes(s: Sys, t: Tid, th: Thread, g: Fid, f: Fiber, prev: Option<Fid>)
    requires !s.halted && t in s.threads && th.stack.pc == DestroyDone(g, prev)
    requires At(th, User).(current := prev) == s.threads[t]
    ensures Apply(Put(s, t, th, g, f), Advance(t)) == (Gone(s, g), WasDestroyed(g))
  {
    assert s.threads[t := th][t := s.threads[t]] == s.threads;
    assert s.fibers[g := f] - {g} == s.fibers - {g};
  }

  /** The state in which the destructor has checked and constructed its guard. */
  function Begun(s: Sys, t: Tid, th: Thread, g: Fid, f: Fiber): Sys {
    Put(s, t, At(th, DestroyGuarded(g, th.current)).(current := Some(g)), g, f.(dying := true, place := AtTop(t)))
  }

  lemma Destroys(s: Sys, t: Tid, g: Fid)
    requires AtHand(s, t, g) && s.threads[t].current != Some(g)
    requires s.fibers[g].impl.context.Some? ==> s.fibers[g].impl.context.value.owner == Some(g)
    ensures var i, begun := s.fibers[g].impl, Apply(s, Destroy(t, g));
            if i.context.None? || i.context.value.pc == Entry then
              Onward(begun.0, t, 2) == (Gone(s, g), WasDestroyed(g))
            else
              var unwinding := Apply(begun.0, Advance(t)).0;
              && t in unwinding.threads && unwinding.threads[t].current == Some(g)
              && unwinding.threads[t].stack == i.context.value.(pc := User)
              && Apply(Apply(unwinding, EndCleanup(t)).0, Advance(t)) == (Gone(s, g), WasDestroyed(g))
  {
    hide Apply, Onward, Gone, Begun;
    assert Apply(s, Destroy(t, g)).0 == Begun(s, t, s.threads[t], g, s.fibers[g]) by {
      Begins(s, t, g);
    }
    if s.fibers[g].impl.context.None? || s.fibers[g].impl.context.value.pc == Entry {
      DropsContext(s, t, s.threads[t], g, s.fibers[g]);
    } else {
      Unwinds(s, t, s.threads[t], g, s.fibers[g]);
    }
  }

  lemma Begins(s: Sys, t: Tid, g: Fid)
    requires AtHand(s, t, g) && s.threads[t].current != Some(g)
    ensures Apply(s, Destroy(t, g)).0 == Begun(s, t, s.threads[t], g, s.fibers[g])
  {
  }

  lemma DropsContext(s: Sys, t: Tid, th: Thread, g: Fid, f: Fiber)
    requires !s.halted && t in s.threads && s.threads[t] == th && th.stack.pc == User
    requires f.impl.context.None? || f.impl.context.value.pc == Entry
    ensures Onward(Begun(s, t, th, g, f), t, 2) == (Gone(s, g), WasDestroyed(g))
  {
    hide Apply, Gone, Begun;
    var th' := At(th, DestroyDone(g, th.current)).(current := Some(g));
    var f' := f.(dying := true, place := AtTop(t), impl := f.impl.(context := None));
    Drops(s, t, th, g, f, th', f');
    Removes(s, t, th', g, f', th.current);
  }

  lemma Drops(s: Sys, t: Tid, th: Thread, g: Fid, f: Fiber, th': Thread, f': Fiber)
    requires !s.halted && (f.impl.context.None? || f.impl.context.value.pc == Entry)
    requires th' == At(th, DestroyDone(g, th.current)).(current := Some(g))
    requires f' == f.(dying := true, place := AtTop(t), impl := f.impl.(context := None))
    ensures Apply(Begun(s, t, th, g, f), Advance(t)).0 == Put(s, t, th', g, f')
  {
    PutPut(s, t, At(th, DestroyGuarded(g, th.current)).(current := Some(g)), g,
        f.(dying := true, place := AtTop(t)), th', f');
  }

  lemma Unwinds(s: Sys, t: Tid, th: Thread, g: Fid, f: Fiber)
    requires !s.halted && t in s.threads && s.threads[t] == th && th.stack.pc == User
    requires f.impl.context.Some? && f.impl.context.value.pc != Entry && f.impl.context.value.owner == Some(g)
    ensures var unwinding := Apply(Begun(s, t, th, g, f), Advance(t)).0;
            && t in unwinding.threads && unwinding.threads[t].current == Some(g)
            && unwinding.threads[t].stack == f.impl.context.value.(pc := User)
            && Apply(Apply(unwinding, EndCleanup(t)).0, Advance(t)) == (Gone(s, g), WasDestroyed(g))
  {
    hide Apply, Gone;
    var k := f.impl.context.value;
    var inside := Thread(k.(pc := User), Some(g), th.chain + [g]);
    var f1 := Fiber(f.impl.(context := None), true, Some(th.stack.(pc := DestroyAway(g, th.current))),
                    InChain(t, |th.chain|));
    var outside := Thread(th.stack.(pc := DestroyDone(g, th.current)), Some(g), Popped(inside.chain));
    var f2 := f1.(unwinder := None, place := AtTop(t));
    SwitchesToUnwind(s, t, th, g, f, inside, f1);
    SwitchesFromUnwind(s, t, inside, g, f1, outside, f2);
    assert Popped(inside.chain) == th.chain;
    Removes(s, t, outside, g, f2, th.current);
  }

  lemma SwitchesToUnwind(s: Sys, t: Tid, th: Thread, g: Fid, f: Fiber, inside: Thread, f': Fiber)
    requires !s.halted && f.impl.context.Some? && f.impl.context.value.pc != Entry
    requires inside == Thread(f.impl.context.value.(pc := User), Some(g), th.chain + [g])
    requires f' == Fiber(f.impl.(context := None), true, Some(th.stack.(pc := DestroyAway(g, th.current))),
                         InChain(t, |th.chain|))
    ensures Apply(Begun(s, t, th, g, f), Advance(t)).0 == Put(s, t, inside, g, f')
  {
    PutPut(s, t, At(th, DestroyGuarded(g, th.current)).(current := Some(g)), g,
        f.(dying := true, place := AtTop(t)), inside, f');
  }

  lemma SwitchesFromUnwind(s: Sys, t: Tid, inside: Thread, g: Fid, f: Fiber, outside: Thread, f': Fiber)
    requires !s.halted && inside.stack.pc == User && inside.stack.owner == Some(g) && f.dying && f.unwinder.Some?
    requires f.unwinder.value.pc.DestroyAway?
    requires var below := f.unwinder.value;
             outside == Thread(below.(pc := DestroyDone(below.pc.g, below.pc.prev)), inside.current,
                               Popped(inside.chain))
    requires f' == f.(unwinder := None, place := AtTop(t))
    ensures Apply(Put(s, t, inside, g, f), EndCleanup(t)).0 == Put(s, t, outside, g, f')
  {
    PutPut(s, t, inside, g, f, outside, f');
  }

  /** Construction draws a new id; an empty callback is refused only after that. */
  lemma ConstructionDecides(s: Sys, t: Tid, body: Option<Body>)
    requires !s.halted && t in s.threads && s.threads[t].stack.pc == User
    ensures var g := s.lastId + 1;
            Apply(s, Construct(t, body)) ==
            if body.None? then (s.(lastId := g), ConstructRejected)
            else
              (s.(lastId := g, count := s.count + 1,
                  fibers := s.fibers[g := Fiber(Fresh(g, body.value), false, None, Nowhere)]),
               WasConstructed(g, body.value))
  {
  }
}
