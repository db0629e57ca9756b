/** The invariant holds in every run. */
module FiberPreservation {
  import opened Options
  import opened FiberTypes
  import opened FiberSteps
  import opened FiberInvariant

  lemma SummaryAppend(log: seq<Event>, e: Event, g: Fid)
    ensures Summary(log + [e], g) == Extend(Summary(log, g), g, e)
  {
    assert (log + [e])[..|log|] == log;
  }

  /** The stack of a fiber below the one that moves is not touched by the move. */
  ghost predicate SameBelow(s: Sys, s': Sys, t: Tid, i: nat)
    requires t in s.threads && t in s'.threads && i < |s.threads[t].chain| && i < |s'.threads[t].chain|
  {
    var k, k' := OwnStack(s, s.threads[t], i), OwnStack(s', s'.threads[t], i);
    k == k' || (Calm(k.pc) && Calm(k'.pc) && k.owner == k'.owner && k.pos == k'.pos)
  }

  /** A step that touches one thread and one fiber. */
  ghost predicate Touches(s: Sys, s': Sys, t: Tid, g: Fid) {
    && t in s.threads
    && s'.threads.Keys == s.threads.Keys
    && (forall u :: u in s.threads && u != t ==> s'.threads[u] == s.threads[u])
    && (forall x :: x in s.fibers && x != g ==> x in s'.fibers && s'.fibers[x] == s.fibers[x])
    && (forall x :: x in s'.fibers && x != g ==> x in s.fibers)
  }

  /** The fiber is one that the thread holds, or one that nobody holds. */
  ghost predicate Mine(s: Sys, t: Tid, g: Fid) {
    g in s.fibers ==>
      match s.fibers[g].place
      case Nowhere => true
      case AtTop(x) => x == t
      case InChain(x, i) => x == t
  }

  lemma OtherThreads(s: Sys, s': Sys, t: Tid, g: Fid, u: Tid)
    requires Touches(s, s', t, g) && Mine(s, t, g) && u in s.threads && u != t && ThreadOk(s, u)
    ensures ThreadOk(s', u)
  {
    hide CurrentOk, Running, Calm;
    forall i | 0 <= i < |s.threads[u].chain|
      ensures Nested(s', u, i)
    {
      assert Nested(s, u, i);
    }
  }

  lemma ActiveCalm(g: Fid, f: Fiber, h: History, k: Stack, k': Stack)
    requires Active(g, f, h, k)
    requires Calm(k.pc) && Calm(k'.pc) && k.owner == k'.owner && k.pos == k'.pos
    ensures Active(g, f, h, k')
  {
  }

  lemma SameCount(s: Sys, g: Fid, f': Fiber)
    requires g in s.fibers
    ensures |s.fibers[g := f']| == |s.fibers|
  {
    assert s.fibers[g := f'].Keys == s.fibers.Keys;
    assert |s.fibers[g := f']| == |s.fibers[g := f'].Keys| && |s.fibers| == |s.fibers.Keys|;
  }

  lemma OneFewer(s: Sys, g: Fid)
    requires g in s.fibers
    ensures |s.fibers - {g}| == |s.fibers| - 1
  {
    assert (s.fibers - {g}).Keys == s.fibers.Keys - {g};
    assert |s.fibers - {g}| == |(s.fibers - {g}).Keys| && |s.fibers| == |s.fibers.Keys|;
  }

  /** What is left alone on the thread that moves. */
  ghost predicate Undisturbed(s: Sys, s': Sys, t: Tid, g: Fid)
    requires t in s.threads && t in s'.threads
  {
    var c, c' := s.threads[t].chain, s'.threads[t].chain;
    forall i :: 0 <= i < |c| && c[i] != g ==> i < |c'| && c'[i] == c[i] && c'[..i] == c[..i] && SameBelow(s, s', t, i)
  }

  lemma OtherOwnStack(s: Sys, s': Sys, t: Tid, g: Fid, u: Tid, i: nat)
    requires Touches(s, s', t, g) && Mine(s, t, g) && u in s.threads && u != t && ThreadOk(s, u)
    requires i < |s.threads[u].chain|
    ensures OwnStack(s', s'.threads[u], i) == OwnStack(s, s.threads[u], i)
  {
    if i + 1 < |s.threads[u].chain| {
      assert Nested(s, u, i + 1);
    }
  }

  lemma OtherInChain(s: Sys, log: seq<Event>, s': Sys, log': seq<Event>, t: Tid, g: Fid, x: Fid)
    requires Touches(s, s', t, g) && Mine(s, t, g) && s'.lastId >= s.lastId
    requires Undisturbed(s, s', t, g)
    requires x in s.fibers && x != g && s.fibers[x].place.InChain? && FiberOk(s, log, x)
    requires s.fibers[x].place.t != t ==> ThreadOk(s, s.fibers[x].place.t)
    requires Summary(log', x) == Summary(log, x)
    ensures FiberOk(s', log', x)
  {
    hide Told, Active, Extend, Summary;
    var f, u, i := s.fibers[x], s.fibers[x].place.t, s.fibers[x].place.i;
    var k, k' := OwnStack(s, s.threads[u], i), OwnStack(s', s'.threads[u], i);
    if u == t {
      assert SameBelow(s, s', t, i);
      if k != k' {
        ActiveCalm(x, f, Summary(log, x), k, k');
      }
    } else {
      OtherOwnStack(s, s', t, g, u, i);
    }
  }

  lemma OtherFibers(s: Sys, log: seq<Event>, s': Sys, e: Event, t: Tid, g: Fid, x: Fid)
    requires Inv(s, log) && Touches(s, s', t, g) && Mine(s, t, g) && s'.lastId >= s.lastId
    requires ThreadOk(s', t) && Undisturbed(s, s', t, g)
    requires x in s.fibers && x != g && Extend(Summary(log, x), x, e) == Summary(log, x)
    requires PcFiber(s.threads[t].stack.pc) == None || PcFiber(s.threads[t].stack.pc) == Some(g)
    ensures FiberOk(s', log + [e], x)
  {
    hide Told, Active, HeldBy, Free, Linked, OwnStack, Extend, ThreadOk, Undisturbed;
    SummaryAppend(log, e, x);
    if s.fibers[x].place.InChain? {
      OtherInChain(s, log, s', log + [e], t, g, x);
    } else {
      assert FiberOk(s, log, x);
    }
  }

  lemma StepKeeps(s: Sys, log: seq<Event>, s': Sys, e: Event, t: Tid, g: Fid)
    requires Inv(s, log) && Touches(s, s', t, g) && Mine(s, t, g) && s'.lastId >= s.lastId
    requires ThreadOk(s', t) && Undisturbed(s, s', t, g)
    requires forall x :: x != g ==> Extend(Summary(log, x), x, e) == Summary(log, x)
    requires PcFiber(s.threads[t].stack.pc) == None || PcFiber(s.threads[t].stack.pc) == Some(g)
    requires g in s'.fibers ==> FiberOk(s', log + [e], g)
    requires s'.count == |s'.fibers|
    ensures Inv(s', log + [e])
  {
    hide ThreadOk, FiberOk, Undisturbed, Mine, Extend, Summary, PcFiber;
    forall u | u in s'.threads
      ensures ThreadOk(s', u)
    {
      if u != t {
        OtherThreads(s, s', t, g, u);
      }
    }
    forall x | x in s'.fibers
      ensures FiberOk(s', log + [e], x)
    {
      if x != g {
        OtherFibers(s, log, s', e, t, g, x);
      }
    }
  }

  ghost predicate About(e: Event, g: Fid) {
    forall h: History, x :: x != g ==> Extend(h, x, e) == h
  }

  /** The fiber and its activation after a step that leaves the chain of the thread alone and has g outside it. */
  ghost predicate TopStep(th: Thread, pc: Pc, current: Option<Fid>, g: Fid, f: Fiber, f': Fiber, t: Tid, h': History) {
    && Calm(pc) && Running(pc) && CurrentOk(pc, current, Top(th.chain))
    && (f.place == Nowhere || f.place == AtTop(t))
    && Told(f'.impl, h')
    && if PcFiber(pc).Some? then PcFiber(pc) == Some(g) && f'.place == AtTop(t) && HeldBy(pc, g, f', h')
       else f'.place == Nowhere && Free(g, f', h')
  }

  lemma TopFrame(s: Sys, t: Tid, pc: Pc, current: Option<Fid>, g: Fid, f': Fiber)
    requires t in s.threads && ThreadOk(s, t) && g in s.fibers
    requires s.fibers[g].place == Nowhere || s.fibers[g].place == AtTop(t)
    requires Calm(s.threads[t].stack.pc) && Calm(pc)
    ensures var s' := Put(s, t, At(s.threads[t], pc).(current := current), g, f');
            Touches(s, s', t, g) && Mine(s, t, g) && Undisturbed(s, s', t, g)
  {
    var th := s.threads[t];
    var s' := Put(s, t, At(th, pc).(current := current), g, f');
    forall i | 0 <= i < |th.chain|
      ensures SameBelow(s, s', t, i)
    {
      assert Nested(s, t, i);
      if i + 1 < |th.chain| {
        assert Nested(s, t, i + 1);
      }
    }
  }

  lemma TopThread(s: Sys, t: Tid, pc: Pc, current: Option<Fid>, g: Fid, f': Fiber)
    requires t in s.threads && ThreadOk(s, t) && g in s.fibers
    requires s.fibers[g].place == Nowhere || s.fibers[g].place == AtTop(t)
    requires Calm(pc) && Running(pc) && CurrentOk(pc, current, Top(s.threads[t].chain))
    requires PcFiber(pc).Some? ==> PcFiber(pc) == Some(g) && f'.place == AtTop(t)
    ensures ThreadOk(Put(s, t, At(s.threads[t], pc).(current := current), g, f'), t)
  {
    var th := s.threads[t];
    var s' := Put(s, t, At(th, pc).(current := current), g, f');
    forall i | 0 <= i < |th.chain|
      ensures Nested(s', t, i)
    {
      assert Nested(s, t, i);
    }
  }

  lemma TopFiber(s: Sys, log: seq<Event>, t: Tid, pc: Pc, current: Option<Fid>, g: Fid, f': Fiber, e: Event)
    requires t in s.threads && 1 <= g <= s.lastId && g in s.fibers
    requires TopStep(s.threads[t], pc, current, g, s.fibers[g], f', t, Extend(Summary(log, g), g, e))
    ensures FiberOk(Put(s, t, At(s.threads[t], pc).(current := current), g, f'), log + [e], g)
  {
    hide Told, HeldBy, Active, Free, Extend, Summary, CurrentOk, Calm, Running;
    SummaryAppend(log, e, g);
  }

  lemma TopKeeps(s: Sys, log: seq<Event>, t: Tid, pc: Pc, current: Option<Fid>, g: Fid, f': Fiber, e: Event)
    requires Inv(s, log) && t in s.threads && g in s.fibers && About(e, g)
    requires Calm(s.threads[t].stack.pc)
    requires PcFiber(s.threads[t].stack.pc) == None || PcFiber(s.threads[t].stack.pc) == Some(g)
    requires TopStep(s.threads[t], pc, current, g, s.fibers[g], f', t, Extend(Summary(log, g), g, e))
    ensures Inv(Put(s, t, At(s.threads[t], pc).(current := current), g, f'), log + [e])
  {
    hide Told, HeldBy, Active, Free, Extend, Summary, CurrentOk, Touches, Mine, Undisturbed;
    var s' := Put(s, t, At(s.threads[t], pc).(current := current), g, f');
    assert ThreadOk(s, t) && FiberOk(s, log, g);
    TopFrame(s, t, pc, current, g, f');
    TopThread(s, t, pc, current, g, f');
    TopFiber(s, log, t, pc, current, g, f', e);
    SameCount(s, g, f');
    StepKeeps(s, log, s', e, t, g);
  }

  // ---- Steps whose fiber stays outside the chain of the thread ----

  ghost predicate InResume(pc: Pc) {
    PcFiber(pc).Some? && !InReset(pc) && !pc.DestroyGuarded? && !pc.DestroyDone? && !pc.ResumeGuarded?
  }

  /** What is to be shown of a step inside `resume` or `reset`, in terms of the fiber alone. */
  ghost predicate LocalOk(g: Fid, f: Fiber, h: History, top: Option<Fid>, l: Local) {
    var h' := Extend(h, g, l.event);
    && Calm(l.pc) && Running(l.pc) && CurrentOk(l.pc, l.current, top)
    && Told(l.impl, h')
    && if PcFiber(l.pc).Some? then PcFiber(l.pc) == Some(g) && HeldBy(l.pc, g, f.(impl := l.impl), h')
       else Free(g, f.(impl := l.impl), h')
  }

  lemma ResumeEnters(pc: Pc, current: Option<Fid>, top: Option<Fid>, g: Fid, f: Fiber, h: History)
    requires (pc.ResumeHeld? || pc.ResumeExec?) && pc.g == g && CurrentOk(pc, current, top)
    requires Told(f.impl, h) && HeldBy(pc, g, f, h)
    ensures LocalOk(g, f, h, top, ResumeStep(pc, current, g, f.impl))
  {
    hide Parked, Matches;
  }

  lemma ResumeLeaves(pc: Pc, current: Option<Fid>, top: Option<Fid>, g: Fid, f: Fiber, h: History)
    requires (pc.ResumeBack? || pc.ResumeSaved? || pc.ResumeRead?) && pc.g == g && CurrentOk(pc, current, top)
    requires Told(f.impl, h) && HeldBy(pc, g, f, h)
    ensures LocalOk(g, f, h, top, ResumeStep(pc, current, g, f.impl))
  {
    hide Scripted, Matches, Parked;
  }

  lemma ResumeReturns(pc: Pc, current: Option<Fid>, top: Option<Fid>, g: Fid, f: Fiber, h: History)
    requires pc.ResumeUnguarded? && pc.g == g && CurrentOk(pc, current, top)
    requires Told(f.impl, h) && HeldBy(pc, g, f, h)
    ensures LocalOk(g, f, h, top, ResumeStep(pc, current, g, f.impl))
  {
  }

  lemma ResumeLocal(pc: Pc, current: Option<Fid>, top: Option<Fid>, g: Fid, f: Fiber, h: History)
    requires PcFiber(pc) == Some(g) && InResume(pc) && CurrentOk(pc, current, top)
    requires Told(f.impl, h) && HeldBy(pc, g, f, h)
    ensures LocalOk(g, f, h, top, ResumeStep(pc, current, g, f.impl))
  {
    hide Told, HeldBy, LocalOk, ResumeStep, CurrentOk;
    if pc.ResumeHeld? || pc.ResumeExec? {
      ResumeEnters(pc, current, top, g, f, h);
    } else if pc.ResumeUnguarded? {
      ResumeReturns(pc, current, top, g, f, h);
    } else {
      ResumeLeaves(pc, current, top, g, f, h);
    }
  }

  lemma ResetBegins(pc: Pc, current: Option<Fid>, top: Option<Fid>, g: Fid, f: Fiber, h: History)
    requires pc.ResetHeld? && pc.g == g && CurrentOk(pc, current, top)
    requires Told(f.impl, h) && HeldBy(pc, g, f, h)
    ensures LocalOk(g, f, h, top, ResetStep(pc, current, g, f.impl))
  {
    hide Scripted, Parked, Matches;
  }

  lemma ResetClears(pc: Pc, current: Option<Fid>, top: Option<Fid>, g: Fid, f: Fiber, h: History)
    requires (pc.ResetCleared? || pc.ResetBuilt?) && pc.g == g && CurrentOk(pc, current, top)
    requires Told(f.impl, h) && HeldBy(pc, g, f, h)
    ensures LocalOk(g, f, h, top, ResetStep(pc, current, g, f.impl))
  {
    hide Scripted;
  }

  lemma ResetStores(pc: Pc, current: Option<Fid>, top: Option<Fid>, g: Fid, f: Fiber, h: History)
    requires (pc.ResetReasoned? || pc.ResetSuspended?) && pc.g == g && CurrentOk(pc, current, top)
    requires Told(f.impl, h) && HeldBy(pc, g, f, h)
    ensures LocalOk(g, f, h, top, ResetStep(pc, current, g, f.impl))
  {
  }

  lemma ResetReturns(pc: Pc, current: Option<Fid>, top: Option<Fid>, g: Fid, f: Fiber, h: History)
    requires pc.ResetStored? && pc.g == g && CurrentOk(pc, current, top)
    requires Told(f.impl, h) && HeldBy(pc, g, f, h)
    ensures LocalOk(g, f, h, top, ResetStep(pc, current, g, f.impl))
  {
    hide Scripted;
  }

  lemma ResetLocal(pc: Pc, current: Option<Fid>, top: Option<Fid>, g: Fid, f: Fiber, h: History)
    requires PcFiber(pc) == Some(g) && InReset(pc) && !pc.ResetHeld? && CurrentOk(pc, current, top)
    requires Told(f.impl, h) && HeldBy(pc, g, f, h)
    ensures LocalOk(g, f, h, top, ResetStep(pc, current, g, f.impl))
  {
    hide Told, HeldBy, LocalOk, ResetStep, CurrentOk;
    if pc.ResetCleared? || pc.ResetBuilt? {
      ResetClears(pc, current, top, g, f, h);
    } else if pc.ResetStored? {
      ResetReturns(pc, current, top, g, f, h);
    } else {
      ResetStores(pc, current, top, g, f, h);
    }
  }

  lemma PutLocalKeeps(s: Sys, log: seq<Event>, t: Tid, g: Fid, l: Local)
    requires Inv(s, log) && t in s.threads && PcFiber(s.threads[t].stack.pc) == Some(g) && g in s.fibers
    requires About(l.event, g) && LocalOk(g, s.fibers[g], Summary(log, g), Top(s.threads[t].chain), l)
    ensures var (s', e) := PutLocal(s, t, s.threads[t], g, l); Inv(s', log + [e])
  {
    hide Told, HeldBy, Active, Free, Extend, Summary;
    assert ThreadOk(s, t);
    var f' := s.fibers[g].(impl := l.impl, place := if PcFiber(l.pc).None? then Nowhere else AtTop(t));
    LocalPlace(g, s.fibers[g], Extend(Summary(log, g), g, l.event), l, f');
    TopKeeps(s, log, t, l.pc, l.current, g, f', l.event);
  }

  /** The bookkeeping of places takes no part in what is to be shown. */
  lemma LocalPlace(g: Fid, f: Fiber, h': History, l: Local, f': Fiber)
    requires f' == f.(impl := l.impl, place := f'.place)
    ensures PcFiber(l.pc) == Some(g) ==> HeldBy(l.pc, g, f.(impl := l.impl), h') == HeldBy(l.pc, g, f', h')
    ensures Free(g, f.(impl := l.impl), h') == Free(g, f', h')
  {
  }

  /** The step inside `resume` or `reset` that the activation calls for. */
  function MemberStep(pc: Pc, current: Option<Fid>, g: Fid, i: Impl): Local {
    if InReset(pc) then ResetStep(pc, current, g, i) else ResumeStep(pc, current, g, i)
  }

  lemma MemberStepAbout(pc: Pc, current: Option<Fid>, g: Fid, i: Impl)
    ensures About(MemberStep(pc, current, g, i).event, g)
  {
  }

  lemma MemberStepOk(pc: Pc, current: Option<Fid>, top: Option<Fid>, g: Fid, f: Fiber, h: History)
    requires PcFiber(pc) == Some(g) && (InResume(pc) || InReset(pc)) && CurrentOk(pc, current, top)
    requires Told(f.impl, h) && HeldBy(pc, g, f, h)
    ensures LocalOk(g, f, h, top, MemberStep(pc, current, g, f.impl))
  {
    if pc.ResetHeld? {
      ResetBegins(pc, current, top, g, f, h);
    } else if InReset(pc) {
      ResetLocal(pc, current, top, g, f, h);
    } else {
      ResumeLocal(pc, current, top, g, f, h);
    }
  }

  lemma MemberKeeps(s: Sys, log: seq<Event>, t: Tid, g: Fid)
    requires Inv(s, log) && t in s.threads && PcFiber(s.threads[t].stack.pc) == Some(g)
    requires InResume(s.threads[t].stack.pc) || InReset(s.threads[t].stack.pc)
    ensures g in s.fibers
    ensures var th := s.threads[t];
            var (s', e) := PutLocal(s, t, th, g, MemberStep(th.stack.pc, th.current, g, s.fibers[g].impl));
            Inv(s', log + [e])
  {
    assert ThreadOk(s, t) && FiberOk(s, log, g);
    var th, f := s.threads[t], s.fibers[g];
    MemberStepAbout(th.stack.pc, th.current, g, f.impl);
    MemberStepOk(th.stack.pc, th.current, Top(th.chain), g, f, Summary(log, g));
    PutLocalKeeps(s, log, t, g, MemberStep(th.stack.pc, th.current, g, f.impl));
  }

  lemma AcquireKeeps(s: Sys, log: seq<Event>, t: Tid, g: Fid, pc: Pc)
    requires Inv(s, log) && t in s.threads && s.threads[t].stack.pc == User
    requires pc == ResumeHeld(g) || (pc.ResetHeld? && pc.g == g)
    ensures var (s', e) := CallMember(s, t, s.threads[t], g, pc); Inv(s', log + [e])
  {
    hide Inv, Extend;
    NothingIsSaid();
    if !Callable(s, g) {
      QuietKeeps(s, log, Nothing);
    } else if s.fibers[g].impl.operating {
      QuietKeeps(s, log, AlreadyActive(g));
    } else {
      var th, f := s.threads[t], s.fibers[g];
      FreeToTake(s, log, t, g);
      AcquireRecord(th, t, pc, g, f, Summary(log, g));
      assert th.(current := th.current) == th;
      TopKeeps(s, log, t, pc, th.current, g, f.(impl := f.impl.(operating := true), place := AtTop(t)), Internal);
    }
  }

  /** A thread in its own code and a fiber that no call is in progress on. */
  lemma FreeToTake(s: Sys, log: seq<Event>, t: Tid, g: Fid)
    requires Inv(s, log) && t in s.threads && s.threads[t].stack.pc == User
    requires g in s.fibers && !s.fibers[g].impl.operating && !s.fibers[g].dying
    ensures s.threads[t].current == Top(s.threads[t].chain)
    ensures s.fibers[g].place == Nowhere && Free(g, s.fibers[g], Summary(log, g))
              && Told(s.fibers[g].impl, Summary(log, g))
  {
    hide Told, Free, Summary;
    assert ThreadOk(s, t) && FiberOk(s, log, g);
    NotOperating(s, log, g);
  }

  lemma AcquireRecord(th: Thread, t: Tid, pc: Pc, g: Fid, f: Fiber, h: History)
    requires f.place == Nowhere && Free(g, f, h) && Told(f.impl, h) && th.current == Top(th.chain)
    requires pc == ResumeHeld(g) || (pc.ResetHeld? && pc.g == g)
    ensures TopStep(th, pc, th.current, g, f, f.(impl := f.impl.(operating := true), place := AtTop(t)), t,
              Extend(h, g, Internal))
  {
  }

  lemma DyingRecord(th: Thread, t: Tid, g: Fid, f: Fiber, h: History)
    requires f.place == Nowhere && Free(g, f, h) && Told(f.impl, h) && th.current == Top(th.chain)
    ensures TopStep(th, DestroyGuarded(g, th.current), Some(g), g, f, f.(dying := true, place := AtTop(t)), t,
              Extend(h, g, Internal))
  {
  }

  /** With the flag clear and no destruction begun, no call is in progress on the fiber. */
  lemma NotOperating(s: Sys, log: seq<Event>, g: Fid)
    requires g in s.fibers && FiberOk(s, log, g) && !s.fibers[g].impl.operating && !s.fibers[g].dying
    ensures s.fibers[g].place == Nowhere
  {
  }

  lemma NothingIsSaid()
    ensures forall h: History, x :: Extend(h, x, Nothing) == h
    ensures forall h: History, x :: Extend(h, x, Internal) == h
    ensures forall h: History, x :: Extend(h, x, Terminated) == h
    ensures forall h: History, x, g :: Extend(h, x, AlreadyActive(g)) == h
    ensures forall h: History, x, g :: Extend(h, x, YieldRejected(g)) == h
  {
  }

  /** An event that says nothing about any history, without a change of state. */
  lemma QuietKeeps(s: Sys, log: seq<Event>, e: Event)
    requires Inv(s, log) && forall h: History, x :: Extend(h, x, e) == h
    ensures Inv(s, log + [e])
  {
    hide Inv, Extend;
    SameKeeps(s, log, s, e);
  }

  lemma DestroyCallKeeps(s: Sys, log: seq<Event>, t: Tid, g: Fid)
    requires Inv(s, log) && t in s.threads && s.threads[t].stack.pc == User
    ensures var (s', e) := CallDestroy(s, t, s.threads[t], g); Inv(s', log + [e])
  {
    hide Inv, Extend;
    NothingIsSaid();
    if !Callable(s, g) {
      QuietKeeps(s, log, Nothing);
    } else if s.threads[t].current == Some(g) || s.fibers[g].impl.operating {
      SameKeeps(s, log, s.(halted := true), Terminated);
    } else {
      var th, f := s.threads[t], s.fibers[g];
      FreeToTake(s, log, t, g);
      DyingRecord(th, t, g, f, Summary(log, g));
      TopKeeps(s, log, t, DestroyGuarded(g, th.current), Some(g), g, f.(dying := true, place := AtTop(t)), Internal);
    }
  }

  lemma SameThreadOk(s: Sys, s': Sys, t: Tid)
    requires s'.threads == s.threads && s'.fibers == s.fibers && t in s.threads && ThreadOk(s, t)
    ensures ThreadOk(s', t)
  {
    forall i | 0 <= i < |s.threads[t].chain|
      ensures Nested(s', t, i)
    {
      assert Nested(s, t, i);
    }
  }

  /** A step that touches neither threads nor fibers. */
  lemma SameKeeps(s: Sys, log: seq<Event>, s': Sys, e: Event)
    requires Inv(s, log) && s'.threads == s.threads && s'.fibers == s.fibers && s'.lastId >= s.lastId
              && s'.count == s.count
    requires forall h: History, x :: Extend(h, x, e) == h
    ensures Inv(s', log + [e])
  {
    hide Told, Active, HeldBy, Free, Linked, Extend, Summary, ThreadOk;
    forall t | t in s'.threads
      ensures ThreadOk(s', t)
    {
      SameThreadOk(s, s', t);
    }
    forall g | g in s'.fibers
      ensures FiberOk(s', log + [e], g)
    {
      SummaryAppend(log, e, g);
      assert FiberOk(s, log, g);
    }
  }

  // ---- Switches ----

  lemma PushFrame(s: Sys, t: Tid, th': Thread, g: Fid, f': Fiber, pc: Pc)
    requires t in s.threads && ThreadOk(s, t) && g in s.fibers && s.fibers[g].place == AtTop(t)
    requires Calm(s.threads[t].stack.pc) && Calm(pc)
    requires th'.chain == s.threads[t].chain + [g] && Below(f') == Some(s.threads[t].stack.(pc := pc))
    ensures var s' := Put(s, t, th', g, f'); Touches(s, s', t, g) && Mine(s, t, g) && Undisturbed(s, s', t, g)
  {
    var c := s.threads[t].chain;
    var s' := Put(s, t, th', g, f');
    forall i | 0 <= i < |c|
      ensures th'.chain[i] == c[i] && th'.chain[..i] == c[..i] && SameBelow(s, s', t, i)
    {
      assert Nested(s, t, i);
      if i + 1 < |c| {
        assert Nested(s, t, i + 1);
      }
    }
  }

  lemma PushThread(s: Sys, t: Tid, th': Thread, g: Fid, f': Fiber)
    requires t in s.threads && ThreadOk(s, t) && g in s.fibers && s.fibers[g].place == AtTop(t)
    requires th'.chain == s.threads[t].chain + [g] && th'.current == Some(g) && th'.stack.pc == User
              && th'.stack.owner == Some(g)
    requires f'.place == InChain(t, |s.threads[t].chain|) && Below(f').Some?
    ensures ThreadOk(Put(s, t, th', g, f'), t)
  {
    var s' := Put(s, t, th', g, f');
    forall i | 0 <= i < |th'.chain|
      ensures Nested(s', t, i)
    {
      if i < |s.threads[t].chain| {
        assert Nested(s, t, i);
      }
    }
  }

  lemma PushFiber(s: Sys, log: seq<Event>, t: Tid, th': Thread, g: Fid, f': Fiber, pc: Pc, e: Event)
    requires t in s.threads && g in s.fibers && 1 <= g <= s.lastId
    requires th'.chain == s.threads[t].chain + [g] && Below(f') == Some(s.threads[t].stack.(pc := pc))
    requires s.threads[t].stack.owner == Top(s.threads[t].chain)
    requires f'.place == InChain(t, |s.threads[t].chain|)
    requires pc == if f'.dying then DestroyAway(g, Top(s.threads[t].chain)) else ResumeAway(g, Top(s.threads[t].chain))
    requires var h' := Extend(Summary(log, g), g, e); Told(f'.impl, h') && Active(g, f', h', th'.stack)
    ensures FiberOk(Put(s, t, th', g, f'), log + [e], g)
  {
    hide Told, Active, Extend, Summary;
    SummaryAppend(log, e, g);
    assert th'.chain[..|s.threads[t].chain|] == s.threads[t].chain;
  }

  lemma PushKeeps(s: Sys, log: seq<Event>, t: Tid, th': Thread, g: Fid, f': Fiber, pc: Pc, e: Event)
    requires Inv(s, log) && t in s.threads && g in s.fibers && s.fibers[g].place == AtTop(t) && About(e, g)
    requires Calm(s.threads[t].stack.pc) && Calm(pc)
    requires th'.chain == s.threads[t].chain + [g] && Below(f') == Some(s.threads[t].stack.(pc := pc))
    requires th'.current == Some(g) && th'.stack.pc == User && th'.stack.owner == Some(g)
    requires f'.place == InChain(t, |s.threads[t].chain|)
    requires pc == if f'.dying then DestroyAway(g, Top(s.threads[t].chain)) else ResumeAway(g, Top(s.threads[t].chain))
    requires var h' := Extend(Summary(log, g), g, e); Told(f'.impl, h') && Active(g, f', h', th'.stack)
    ensures Inv(Put(s, t, th', g, f'), log + [e])
  {
    hide Told, HeldBy, Active, Free, Extend, Summary, CurrentOk, Touches, Mine, Undisturbed, Linked;
    var s' := Put(s, t, th', g, f');
    assert ThreadOk(s, t) && FiberOk(s, log, g);
    PushFrame(s, t, th', g, f', pc);
    PushThread(s, t, th', g, f');
    PushFiber(s, log, t, th', g, f', pc, e);
    SameCount(s, g, f');
    StepKeeps(s, log, s', e, t, g);
  }

  /** The fiber that a member function in progress works on. */
  lemma HeldFiber(s: Sys, log: seq<Event>, t: Tid, g: Fid)
    requires Inv(s, log) && t in s.threads && PcFiber(s.threads[t].stack.pc) == Some(g)
    ensures var th := s.threads[t];
            && g in s.fibers && s.fibers[g].place == AtTop(t)
            && Told(s.fibers[g].impl, Summary(log, g)) && HeldBy(th.stack.pc, g, s.fibers[g], Summary(log, g))
            && th.stack.owner == Top(th.chain) && CurrentOk(th.stack.pc, th.current, Top(th.chain))
  {
    hide Told, HeldBy, Summary, CurrentOk, Active;
    assert ThreadOk(s, t) && FiberOk(s, log, g);
  }

  lemma SwitchInKeeps(s: Sys, log: seq<Event>, t: Tid, g: Fid, prev: Option<Fid>)
    requires Inv(s, log) && t in s.threads && s.threads[t].stack.pc == ResumeGuarded(g, prev)
    ensures g in s.fibers
    ensures var (s', e) := SwitchIn(s, t, s.threads[t], g, prev); Inv(s', log + [e])
  {
    hide Inv, Told, Active, Extend, Summary, HeldBy;
    HeldFiber(s, log, t, g);
    var th, f, h := s.threads[t], s.fibers[g], Summary(log, g);
    EntersWith(g, f, h, prev, th.stack);
    var k, f' := f.impl.context.value, EnteredFiber(g, f, prev, th.stack, InChain(t, |th.chain|));
    EnteredPlace(g, f, prev, th.stack, InChain(t, |th.chain|), Extend(h, g, SegmentStarted(g, k.pos)), k.(pc := User));
    StartedAbout(g, k.pos);
    PushKeeps(s, log, t, Thread(k.(pc := User), th.current, th.chain + [g]), g, f', ResumeAway(g, prev),
        SegmentStarted(g, k.pos));
  }

  lemma StartedAbout(g: Fid, k: nat)
    ensures About(SegmentStarted(g, k), g)
  {
  }

  function EnteredFiber(g: Fid, f: Fiber, prev: Option<Fid>, caller: Stack, place: Place): Fiber {
    f.(impl := f.impl.(context := None, caller := Some(caller.(pc := ResumeAway(g, prev)))), place := place)
  }

  /** A fiber that starts a segment. */
  lemma EntersWith(g: Fid, f: Fiber, h: History, prev: Option<Fid>, caller: Stack)
    requires Told(f.impl, h) && HeldBy(ResumeGuarded(g, prev), g, f, h)
    ensures f.impl.context.Some? && f.impl.context.value.owner == Some(g) && !f.dying
    ensures var k := f.impl.context.value;
            var h' := Extend(h, g, SegmentStarted(g, k.pos));
            var f' := EnteredFiber(g, f, prev, caller, f.place);
            Told(f'.impl, h') && Active(g, f', h', k.(pc := User))
  {
    var k := f.impl.context.value;
    assert h.segments + [k.pos] == Extend(h, g, SegmentStarted(g, k.pos)).segments;
  }

  lemma EnteredPlace(g: Fid, f: Fiber, prev: Option<Fid>, caller: Stack, place: Place, h: History, k: Stack)
    ensures var f', f0 := EnteredFiber(g, f, prev, caller, place), EnteredFiber(g, f, prev, caller, f.place);
            f'.impl == f0.impl && (Active(g, f', h, k) <==> Active(g, f0, h, k))
  {
  }

  lemma UnwindKeeps(s: Sys, log: seq<Event>, t: Tid, g: Fid, prev: Option<Fid>)
    requires Inv(s, log) && t in s.threads && s.threads[t].stack.pc == DestroyGuarded(g, prev)
    requires g in s.fibers && s.fibers[g].impl.context.Some? && !s.fibers[g].impl.context.value.pc.Entry?
    ensures var (s', e) := AdvanceDestroy(s, t, s.threads[t], g); Inv(s', log + [e])
  {
    hide Inv, Told, Active, Extend, Summary, HeldBy;
    HeldFiber(s, log, t, g);
    var th, f, h := s.threads[t], s.fibers[g], Summary(log, g);
    UnwindRecord(g, f, h, prev, th.stack, InChain(t, |th.chain|));
    var k := f.impl.context.value;
    var f' := UnwoundFiber(g, f, prev, th.stack, InChain(t, |th.chain|));
    NothingIsSaid();
    PushKeeps(s, log, t, Thread(k.(pc := User), th.current, th.chain + [g]), g, f', DestroyAway(g, prev), Internal);
  }

  function UnwoundFiber(g: Fid, f: Fiber, prev: Option<Fid>, destroyer: Stack, place: Place): Fiber {
    f.(impl := f.impl.(context := None), unwinder := Some(destroyer.(pc := DestroyAway(g, prev))), place := place)
  }

  lemma UnwindRecord(g: Fid, f: Fiber, h: History, prev: Option<Fid>, destroyer: Stack, place: Place)
    requires Told(f.impl, h) && HeldBy(DestroyGuarded(g, prev), g, f, h) && f.impl.context.Some?
    ensures f.dying && f.impl.context.value.owner == Some(g)
    ensures var h' := Extend(h, g, Internal);
            var f' := UnwoundFiber(g, f, prev, destroyer, place);
            Told(f'.impl, h') && Active(g, f', h', f.impl.context.value.(pc := User))
  {
  }

  lemma DropRecord(g: Fid, f: Fiber, h: History, prev: Option<Fid>)
    requires Told(f.impl, h) && HeldBy(DestroyGuarded(g, prev), g, f, h)
    ensures Told(f.impl.(context := None), h)
              && HeldBy(DestroyDone(g, prev), g, f.(impl := f.impl.(context := None)), h)
  {
  }

  lemma DropContextKeeps(s: Sys, log: seq<Event>, t: Tid, g: Fid, prev: Option<Fid>)
    requires Inv(s, log) && t in s.threads && s.threads[t].stack.pc == DestroyGuarded(g, prev)
    requires g in s.fibers && (s.fibers[g].impl.context.None? || s.fibers[g].impl.context.value.pc.Entry?)
    ensures var (s', e) := AdvanceDestroy(s, t, s.threads[t], g); Inv(s', log + [e])
  {
    hide Inv, Told, Active, Summary, HeldBy, Free;
    HeldFiber(s, log, t, g);
    var th, f := s.threads[t], s.fibers[g];
    DropRecord(g, f, Summary(log, g), prev);
    TopKeeps(s, log, t, DestroyDone(g, prev), th.current, g, f.(impl := f.impl.(context := None)), Internal);
  }

  lemma RemoveFrame(s: Sys, t: Tid, prev: Option<Fid>, g: Fid)
    requires t in s.threads && ThreadOk(s, t) && g in s.fibers && s.threads[t].stack.pc == DestroyDone(g, prev)
    ensures var s' := WithoutFiber(s, t, At(s.threads[t], User).(current := prev), g);
            Touches(s, s', t, g) && Mine(s, t, g) && Undisturbed(s, s', t, g) && ThreadOk(s', t)
  {
    var c := s.threads[t].chain;
    var s' := WithoutFiber(s, t, At(s.threads[t], User).(current := prev), g);
    forall i | 0 <= i < |c|
      ensures Nested(s', t, i) && SameBelow(s, s', t, i)
    {
      assert Nested(s, t, i);
      if i + 1 < |c| {
        assert Nested(s, t, i + 1);
      }
    }
  }

  lemma RemoveKeeps(s: Sys, log: seq<Event>, t: Tid, g: Fid, prev: Option<Fid>)
    requires Inv(s, log) && t in s.threads && s.threads[t].stack.pc == DestroyDone(g, prev)
    ensures g in s.fibers
    ensures Inv(WithoutFiber(s, t, At(s.threads[t], User).(current := prev), g), log + [WasDestroyed(g)])
  {
    hide Undisturbed, Touches, Summary, FiberOk;
    assert ThreadOk(s, t);
    RemoveFrame(s, t, prev, g);
    OneFewer(s, g);
    StepKeeps(s, log, WithoutFiber(s, t, At(s.threads[t], User).(current := prev), g), WasDestroyed(g), t, g);
  }

  lemma PopFrame(s: Sys, t: Tid, th': Thread, g: Fid, f': Fiber)
    requires t in s.threads && ThreadOk(s, t) && g in s.fibers && Top(s.threads[t].chain) == Some(g)
    requires th'.chain == s.threads[t].chain[..|s.threads[t].chain| - 1] && Below(s.fibers[g]).Some?
    requires var k := Below(s.fibers[g]).value;
             Calm(k.pc) && Calm(th'.stack.pc) && th'.stack.owner == k.owner && th'.stack.pos == k.pos
    ensures var s' := Put(s, t, th', g, f'); Touches(s, s', t, g) && Mine(s, t, g) && Undisturbed(s, s', t, g)
  {
    var c := s.threads[t].chain;
    var s' := Put(s, t, th', g, f');
    assert Nested(s, t, |c| - 1);
    forall i | 0 <= i < |c| && c[i] != g
      ensures i < |th'.chain| && th'.chain[i] == c[i] && th'.chain[..i] == c[..i] && SameBelow(s, s', t, i)
    {
      assert Nested(s, t, i) && Nested(s, t, i + 1);
    }
  }

  lemma PopThread(s: Sys, t: Tid, th': Thread, g: Fid, f': Fiber)
    requires t in s.threads && ThreadOk(s, t) && g in s.fibers && Top(s.threads[t].chain) == Some(g)
    requires th'.chain == s.threads[t].chain[..|s.threads[t].chain| - 1]
    requires th'.stack.owner == Top(th'.chain) && Running(th'.stack.pc) && Calm(th'.stack.pc)
    requires CurrentOk(th'.stack.pc, th'.current, Top(th'.chain))
    requires PcFiber(th'.stack.pc) == Some(g) && f'.place == AtTop(t)
    ensures ThreadOk(Put(s, t, th', g, f'), t)
  {
    var c := s.threads[t].chain;
    var s' := Put(s, t, th', g, f');
    assert Nested(s, t, |c| - 1);
    forall i | 0 <= i < |th'.chain|
      ensures Nested(s', t, i)
    {
      assert Nested(s, t, i);
    }
  }

  lemma PopKeeps(s: Sys, log: seq<Event>, t: Tid, th': Thread, g: Fid, f': Fiber)
    requires Inv(s, log) && t in s.threads && g in s.fibers && Top(s.threads[t].chain) == Some(g)
    requires PcFiber(s.threads[t].stack.pc) == None
    requires th'.chain == s.threads[t].chain[..|s.threads[t].chain| - 1] && Below(s.fibers[g]).Some?
    requires var k := Below(s.fibers[g]).value;
             Calm(k.pc) && Calm(th'.stack.pc) && th'.stack.owner == k.owner && th'.stack.pos == k.pos
    requires th'.stack.owner == Top(th'.chain) && Running(th'.stack.pc)
    requires CurrentOk(th'.stack.pc, th'.current, Top(th'.chain))
    requires PcFiber(th'.stack.pc) == Some(g) && f'.place == AtTop(t)
    requires Told(f'.impl, Summary(log, g)) && HeldBy(th'.stack.pc, g, f', Summary(log, g))
    ensures Inv(Put(s, t, th', g, f'), log + [Internal])
  {
    hide Told, HeldBy, Active, Free, Extend, Summary, CurrentOk, Touches, Mine, Undisturbed, Linked;
    var s' := Put(s, t, th', g, f');
    assert ThreadOk(s, t) && FiberOk(s, log, g);
    PopFrame(s, t, th', g, f');
    PopThread(s, t, th', g, f');
    NothingIsSaid();
    SummaryAppend(log, Internal, g);
    assert FiberOk(s', log + [Internal], g);
    SameCount(s, g, f');
    StepKeeps(s, log, s', Internal, t, g);
  }

  /** The innermost nested fiber is the one whose stack the thread executes. */
  ghost predicate RunsTop(s: Sys, log: seq<Event>, t: Tid)
    requires t in s.threads && s.threads[t].chain != []
  {
    var th := s.threads[t];
    var n := |th.chain| - 1;
    var g := th.chain[n];
    && Top(th.chain) == Some(g) == th.stack.owner && g in s.fibers
    && s.fibers[g].place == InChain(t, n) && Linked(g, s.fibers[g], th.chain, n)
    && Told(s.fibers[g].impl, Summary(log, g)) && Active(g, s.fibers[g], Summary(log, g), th.stack)
  }

  lemma RunningFiber(s: Sys, log: seq<Event>, t: Tid)
    requires Inv(s, log) && t in s.threads && s.threads[t].chain != []
    ensures RunsTop(s, log, t)
  {
    hide Told, HeldBy, Active, Free, Linked, Summary, CurrentOk, Running, Below, Calm, Inv;
    InvThread(s, log, t);
    var th := s.threads[t];
    var n := |th.chain| - 1;
    assert Nested(s, t, n);
    InvFiber(s, log, th.chain[n]);
    assert OwnStack(s, th, n) == th.stack;
  }

  lemma InvFiber(s: Sys, log: seq<Event>, g: Fid)
    requires Inv(s, log) && g in s.fibers
    ensures FiberOk(s, log, g)
  {
    hide ThreadOk, FiberOk;
  }

  lemma InvThread(s: Sys, log: seq<Event>, t: Tid)
    requires Inv(s, log) && t in s.threads
    ensures ThreadOk(s, t)
  {
    hide ThreadOk, FiberOk;
  }

  /** A fiber that has published how its segment ended, once control has left its stack. */
  lemma LeavesRecord(g: Fid, f: Fiber, h: History, k: Stack, place: Place, below: Option<Fid>, ret: Option<Stack>)
    requires Told(f.impl, h) && Active(g, f, h, k) && (k.pc.YieldPublished? || k.pc.RunDone?)
    requires ret == if k.pc.RunDone? then None else Some(k.(pc := Suspended))
    ensures !f.dying && (k.pc.YieldPublished? ==> k.pc.g == g)
    ensures var f' := f.(impl := f.impl.(caller := None), place := place);
            Told(f'.impl, h) && HeldBy(ResumeBack(g, below, ret), g, f', h)
  {
  }

  lemma CleanedRecord(g: Fid, f: Fiber, h: History, k: Stack, place: Place, below: Option<Fid>)
    requires Told(f.impl, h) && Active(g, f, h, k) && f.dying
    ensures var f' := f.(unwinder := None, place := place);
            Told(f'.impl, h) && HeldBy(DestroyDone(g, below), g, f', h)
  {
  }

  lemma SwitchOutKeeps(s: Sys, log: seq<Event>, t: Tid)
    requires Inv(s, log) && t in s.threads && (s.threads[t].stack.pc.YieldPublished? || s.threads[t].stack.pc.RunDone?)
    ensures var (s', e) := AdvanceThread(s, t, s.threads[t]); Inv(s', log + [e])
  {
    hide Told, Active, Extend, Summary, HeldBy, Inv;
    assert ThreadOk(s, t) by {
      InvThread(s, log, t);
    }
    RunningFiber(s, log, t);
    var th := s.threads[t];
    var n := |th.chain| - 1;
    var g := th.chain[n];
    var f := s.fibers[g];
    var ret := if th.stack.pc.RunDone? then None else Some(th.stack.(pc := Suspended));
    LeavesRecord(g, f, Summary(log, g), th.stack, AtTop(t), Top(th.chain[..n]), ret);
    assert AdvanceThread(s, t, th) == SwitchOut(s, t, th, g, ret);
    var caller := f.impl.caller.value;
    var th' := Thread(caller.(pc := ResumeBack(caller.pc.g, caller.pc.prev, ret)), th.current, th.chain[..n]);
    var f' := f.(impl := f.impl.(caller := None), place := AtTop(t));
    PopKeeps(s, log, t, th', g, f');
  }

  lemma CleanupKeeps(s: Sys, log: seq<Event>, t: Tid)
    requires Inv(s, log) && t in s.threads && s.threads[t].stack.pc == User
    ensures var (s', e) := FinishCleanup(s, t, s.threads[t]); Inv(s', log + [e])
  {
    hide Told, Active, Extend, Summary, HeldBy, Inv;
    InvThread(s, log, t);
    NothingIsSaid();
    var th := s.threads[t];
    if th.chain == [] {
      QuietKeeps(s, log, Nothing);
    } else {
      RunningFiber(s, log, t);
      var n := |th.chain| - 1;
      var g := th.chain[n];
      var f := s.fibers[g];
      if f.dying {
        var below := f.unwinder.value;
        CleanedRecord(g, f, Summary(log, g), th.stack, AtTop(t), Top(th.chain[..n]));
        var th' := Thread(below.(pc := DestroyDone(below.pc.g, below.pc.prev)), th.current, th.chain[..n]);
        PopKeeps(s, log, t, th', g, f.(unwinder := None, place := AtTop(t)));
      } else {
        QuietKeeps(s, log, Nothing);
      }
    }
  }

  // ---- Steps of the fiber whose stack the thread executes ----

  lemma RunFrame(s: Sys, t: Tid, k: Stack, g: Fid, f': Fiber)
    requires t in s.threads && ThreadOk(s, t) && g in s.fibers && Top(s.threads[t].chain) == Some(g)
    requires f'.place == s.fibers[g].place && Below(f') == Below(s.fibers[g])
    requires k.owner == Some(g) && Running(k.pc) && CurrentOk(k.pc, s.threads[t].current, Some(g))
              && PcFiber(k.pc) == None
    ensures var s' := Put(s, t, s.threads[t].(stack := k), g, f');
            Touches(s, s', t, g) && Mine(s, t, g) && Undisturbed(s, s', t, g) && ThreadOk(s', t)
  {
    var c := s.threads[t].chain;
    var s' := Put(s, t, s.threads[t].(stack := k), g, f');
    assert Nested(s, t, |c| - 1);
    forall i | 0 <= i < |c|
      ensures Nested(s', t, i) && (c[i] != g ==> SameBelow(s, s', t, i))
    {
      assert Nested(s, t, i);
      if i + 1 < |c| {
        assert Nested(s, t, i + 1);
      }
    }
  }

  lemma RunKeeps(s: Sys, log: seq<Event>, t: Tid, k: Stack, g: Fid, f': Fiber, e: Event)
    requires Inv(s, log) && t in s.threads && g in s.fibers && Top(s.threads[t].chain) == Some(g)
    requires PcFiber(s.threads[t].stack.pc) == None && About(e, g)
    requires f'.place == s.fibers[g].place && Below(f') == Below(s.fibers[g]) && f'.dying == s.fibers[g].dying
    requires k.owner == Some(g) && Running(k.pc) && CurrentOk(k.pc, s.threads[t].current, Some(g))
              && PcFiber(k.pc) == None
    requires var h' := Extend(Summary(log, g), g, e); Told(f'.impl, h') && Active(g, f', h', k)
    ensures Inv(Put(s, t, s.threads[t].(stack := k), g, f'), log + [e])
  {
    hide Told, HeldBy, Active, Free, Extend, Summary, CurrentOk, Touches, Mine, Undisturbed, Linked, Running;
    var s' := Put(s, t, s.threads[t].(stack := k), g, f');
    assert ThreadOk(s, t);
    RunningFiber(s, log, t);
    RunFrame(s, t, k, g, f');
    SummaryAppend(log, e, g);
    assert FiberOk(s, log, g);
    RunPlaced(s, t, k, g, f', Extend(Summary(log, g), g, e));
    SameCount(s, g, f');
    StepKeeps(s, log, s', e, t, g);
  }

  lemma RunPlaced(s: Sys, t: Tid, k: Stack, g: Fid, f': Fiber, h': History)
    requires t in s.threads && g in s.fibers && Top(s.threads[t].chain) == Some(g)
    requires s.fibers[g].place == InChain(t, |s.threads[t].chain| - 1)
    requires Linked(g, s.fibers[g], s.threads[t].chain, |s.threads[t].chain| - 1)
    requires f'.place == s.fibers[g].place && Below(f') == Below(s.fibers[g]) && f'.dying == s.fibers[g].dying
    requires Active(g, f', h', k)
    ensures Placed(Put(s, t, s.threads[t].(stack := k), g, f'), g, h')
  {
  }

  function Target(kind: YieldKind): State {
    if kind.ToReady? then READY else WAITING
  }

  function Reason(kind: YieldKind): WaitReason {
    if kind.ToReady? then NoReason else kind.reason
  }

  function YieldStack(g: Fid, k: Stack): Stack {
    Stack(k.owner, YieldPublished(g), k.pos + 1)
  }

  function YieldFiber(f: Fiber, kind: YieldKind): Fiber {
    f.(impl := Yielded(f.impl, Target(kind), Reason(kind)))
  }

  /** A fiber that publishes how it leaves its segment. */
  lemma YieldRecord(g: Fid, f: Fiber, h: History, k: Stack, kind: YieldKind)
    requires Told(f.impl, h) && Active(g, f, h, k) && !f.dying && k.pc == User
    requires kind != ToHold(NoReason)
    requires h.body.value(k.pos) == (if kind.ToReady? then EndReady else EndHold(kind.reason))
    ensures var h' := Extend(h, g, SegmentEnded(g, Target(kind)));
            Told(YieldFiber(f, kind).impl, h') && Active(g, YieldFiber(f, kind), h', YieldStack(g, k))
    ensures Below(YieldFiber(f, kind)) == Below(f)
  {
  }

  lemma ReturnRecord(g: Fid, f: Fiber, h: History, k: Stack)
    requires Told(f.impl, h) && Active(g, f, h, k) && !f.dying && k.pc == User && h.body.value(k.pos) == EndReturn
    ensures var h' := Extend(h, g, SegmentEnded(g, TERM));
            var f' := f.(impl := Ended(f.impl, TERM));
            Told(f'.impl, h') && Active(g, f', h', k.(pc := RunDone))
  {
  }

  lemma ThrowRecord(g: Fid, f: Fiber, h: History, k: Stack)
    requires Told(f.impl, h) && Active(g, f, h, k) && !f.dying && k.pc == User && h.body.value(k.pos) == EndThrow
    ensures var f' := f.(impl := f.impl.(exception := true));
            Told(f'.impl, h) && Active(g, f', h, k.(pc := RunCaught))
  {
  }

  lemma CaughtRecord(g: Fid, f: Fiber, h: History, k: Stack)
    requires Told(f.impl, h) && Active(g, f, h, k) && k.pc == RunCaught
    ensures !f.dying
    ensures var h' := Extend(h, g, SegmentEnded(g, EXCEPT));
            var f' := f.(impl := Ended(f.impl, EXCEPT));
            Told(f'.impl, h') && Active(g, f', h', k.(pc := RunDone))
  {
  }

  lemma CaughtKeeps(s: Sys, log: seq<Event>, t: Tid)
    requires Inv(s, log) && t in s.threads && s.threads[t].stack.pc.RunCaught?
    ensures var (s', e) := AdvanceThread(s, t, s.threads[t]); Inv(s', log + [e])
  {
    hide Told, Active, Extend, Summary, HeldBy;
    assert ThreadOk(s, t);
    RunningFiber(s, log, t);
    var th := s.threads[t];
    var g := th.chain[|th.chain| - 1];
    var f := s.fibers[g];
    CaughtRecord(g, f, Summary(log, g), th.stack);
    EndedAbout(g, EXCEPT);
    RunKeeps(s, log, t, th.stack.(pc := RunDone), g, f.(impl := Ended(f.impl, EXCEPT)), SegmentEnded(g, EXCEPT));
  }

  /** The fiber on top of the chain is in its callback. */
  ghost predicate InBody(s: Sys, log: seq<Event>, t: Tid, g: Fid)
    requires t in s.threads
  {
    var th := s.threads[t];
    && th.stack.pc == User && Top(th.chain) == Some(g) && th.stack.owner == th.current == Some(g)
    && g in s.fibers && !s.fibers[g].dying && s.fibers[g].impl.caller.Some?
    && Told(s.fibers[g].impl, Summary(log, g)) && Active(g, s.fibers[g], Summary(log, g), th.stack)
  }

  lemma EndedAbout(g: Fid, state: State)
    ensures About(SegmentEnded(g, state), g)
  {
  }

  /** A yield from a callback passes both checks of `yield`. */
  lemma YieldIs(s: Sys, t: Tid, g: Fid, kind: YieldKind)
    requires t in s.threads && g in s.fibers && s.threads[t].current == Some(g) && kind != ToHold(NoReason)
    requires s.fibers[g].impl.state == EXEC && s.fibers[g].impl.caller.Some?
    ensures CallYield(s, t, s.threads[t], kind) == (YieldState(s, t, g, kind), SegmentEnded(g, Target(kind)))
  {
  }

  function YieldState(s: Sys, t: Tid, g: Fid, kind: YieldKind): Sys
    requires t in s.threads && g in s.fibers
  {
    var th, f := s.threads[t], s.fibers[g];
    Put(s, t, th.(stack := YieldStack(g, th.stack)), g, YieldFiber(f, kind))
  }

  lemma YieldKeeps(s: Sys, log: seq<Event>, t: Tid, g: Fid, kind: YieldKind)
    requires Inv(s, log) && t in s.threads && InBody(s, log, t, g)
    requires kind != ToHold(NoReason)
    requires Summary(log, g).body.value(s.threads[t].stack.pos)
              == (if kind.ToReady? then EndReady else EndHold(kind.reason))
    ensures Inv(YieldState(s, t, g, kind), log + [SegmentEnded(g, Target(kind))])
  {
    var th, f := s.threads[t], s.fibers[g];
    YieldRecord(g, f, Summary(log, g), th.stack, kind);
    EndedAbout(g, Target(kind));
    RunKeeps(s, log, t, YieldStack(g, th.stack), g, YieldFiber(f, kind), SegmentEnded(g, Target(kind)));
  }

  lemma ReturnKeeps(s: Sys, log: seq<Event>, t: Tid, g: Fid)
    requires Inv(s, log) && t in s.threads && InBody(s, log, t, g)
    requires Summary(log, g).body.value(s.threads[t].stack.pos) == EndReturn
    ensures Inv(SetImpl(s, t, s.threads[t], RunDone, g, Ended(s.fibers[g].impl, TERM)), log + [SegmentEnded(g, TERM)])
  {
    var th, f := s.threads[t], s.fibers[g];
    ReturnRecord(g, f, Summary(log, g), th.stack);
    EndedAbout(g, TERM);
    RunKeeps(s, log, t, th.stack.(pc := RunDone), g, f.(impl := Ended(f.impl, TERM)), SegmentEnded(g, TERM));
  }

  lemma ThrowKeeps(s: Sys, log: seq<Event>, t: Tid, g: Fid)
    requires Inv(s, log) && t in s.threads && InBody(s, log, t, g)
    requires Summary(log, g).body.value(s.threads[t].stack.pos) == EndThrow
    ensures Inv(SetImpl(s, t, s.threads[t], RunCaught, g, s.fibers[g].impl.(exception := true)), log + [Internal])
  {
    var th, f := s.threads[t], s.fibers[g];
    ThrowRecord(g, f, Summary(log, g), th.stack);
    RunKeeps(s, log, t, th.stack.(pc := RunCaught), g, f.(impl := f.impl.(exception := true)), Internal);
  }

  /** What the thread executes in its own code: a callback, cleanup code, or nothing of a fiber. */
  lemma UserCode(s: Sys, log: seq<Event>, t: Tid)
    requires Inv(s, log) && t in s.threads && s.threads[t].stack.pc == User
    ensures var th := s.threads[t];
            || th.stack.owner == th.current == None
            || (th.stack.owner.Some? && th.stack.owner == th.current && th.stack.owner.value in s.fibers
                && var g := th.stack.owner.value;
                   && (s.fibers[g].dying ==> s.fibers[g].impl.state != EXEC)
                   && (!s.fibers[g].dying ==> InBody(s, log, t, g)))
  {
    assert ThreadOk(s, t);
    if s.threads[t].chain != [] {
      RunningFiber(s, log, t);
    }
  }

  lemma EndKeeps(s: Sys, log: seq<Event>, t: Tid)
    requires Inv(s, log) && t in s.threads && s.threads[t].stack.pc == User
    ensures var (s', e) := CallEnd(s, t, s.threads[t]); Inv(s', log + [e])
  {
    hide Inv, Told, Extend, Summary, YieldState;
    UserCode(s, log, t);
    NothingIsSaid();
    var th := s.threads[t];
    if th.stack.owner.Some? && !s.fibers[th.stack.owner.value].dying {
      var g := th.stack.owner.value;
      match s.fibers[g].impl.callback.value(th.stack.pos)
      case EndReady =>
        YieldKeeps(s, log, t, g, ToReady);
        YieldIs(s, t, g, ToReady);
      case EndHold(reason) =>
        YieldKeeps(s, log, t, g, ToHold(reason));
        YieldIs(s, t, g, ToHold(reason));
      case EndReturn => ReturnKeeps(s, log, t, g);
      case EndThrow => ThrowKeeps(s, log, t, g);
    } else {
      QuietKeeps(s, log, Nothing);
    }
  }

  /** A yield from outside any callback, from cleanup code or without a reason is rejected. */
  lemma StrayRejected(s: Sys, log: seq<Event>, t: Tid, kind: YieldKind)
    requires Inv(s, log) && t in s.threads && s.threads[t].stack.pc == User
    requires var owner := s.threads[t].stack.owner;
             owner.None? || kind == ToHold(NoReason) || (owner.value in s.fibers && s.fibers[owner.value].dying)
    ensures CallYield(s, t, s.threads[t], kind) == (s, YieldRejected(s.threads[t].stack.owner))
  {
    UserCode(s, log, t);
  }

  // ---- Wake and construction ----

  function WokenFiber(f: Fiber): Fiber {
    f.(impl := Woken(f.impl))
  }

  function WokenHistory(h: History): History {
    h.(mode := AfterWake(h.mode), wakes := h.wakes + 1)
  }

  lemma WakeTold(f: Fiber, h: History)
    requires Told(f.impl, h) && f.impl.state == WAITING
    ensures Told(WokenFiber(f).impl, WokenHistory(h))
  {
  }

  lemma WakeHeld(pc: Pc, g: Fid, f: Fiber, h: History)
    requires PcFiber(pc) == Some(g) && HeldBy(pc, g, f, h) && f.impl.state == WAITING && !f.dying
    ensures HeldBy(pc, g, WokenFiber(f), WokenHistory(h))
  {
  }

  lemma WakeFree(g: Fid, f: Fiber, h: History)
    requires Free(g, f, h) && f.impl.state == WAITING
    ensures Free(g, WokenFiber(f), WokenHistory(h))
  {
  }

  lemma WakeActive(g: Fid, f: Fiber, h: History, k: Stack)
    requires Active(g, f, h, k) && f.impl.state == WAITING && !f.dying
    ensures Active(g, WokenFiber(f), WokenHistory(h), k)
  {
  }

  lemma WakePlaced(s: Sys, g: Fid, h: History)
    requires g in s.fibers && Placed(s, g, h) && s.fibers[g].impl.state == WAITING && !s.fibers[g].dying
    requires s.fibers[g].place.InChain? ==> var t := s.fibers[g].place.t; t in s.threads && ThreadOk(s, t)
    ensures Placed(WakeState(s, g), g, WokenHistory(h))
  {
    hide HeldBy, Free, Active, WokenHistory;
    var f, s' := s.fibers[g], WakeState(s, g);
    assert s'.fibers[g] == WokenFiber(f);
    match f.place
    case Nowhere => WakeFree(g, f, h);
    case AtTop(t) => WakeHeld(s.threads[t].stack.pc, g, f, h);
    case InChain(t, i) =>
      if i + 1 < |s.threads[t].chain| {
        assert Nested(s, t, i + 1);
      }
      assert OwnStack(s', s'.threads[t], i) == OwnStack(s, s.threads[t], i);
      WakeActive(g, f, h, OwnStack(s, s.threads[t], i));
  }

  lemma WakeThread(s: Sys, g: Fid, t: Tid)
    requires t in s.threads && ThreadOk(s, t) && g in s.fibers
    ensures ThreadOk(WakeState(s, g), t)
  {
    var s' := WakeState(s, g);
    forall i | 0 <= i < |s.threads[t].chain|
      ensures Nested(s', t, i)
    {
      assert Nested(s, t, i);
    }
  }

  lemma WokeAbout(g: Fid)
    ensures About(WokeUp(g), g)
  {
  }

  /** A fiber other than the woken one. */
  lemma WakeOther(s: Sys, log: seq<Event>, g: Fid, x: Fid)
    requires g in s.fibers && x in s.fibers && x != g && FiberOk(s, log, x)
    ensures FiberOk(WakeState(s, g), log + [WokeUp(g)], x)
  {
    hide Told, HeldBy, Active, Free, Linked, Extend, Summary;
    WokeAbout(g);
    var s' := WakeState(s, g);
    SummaryAppend(log, WokeUp(g), x);
    if s.fibers[x].place.InChain? {
      var t, i := s.fibers[x].place.t, s.fibers[x].place.i;
      assert OwnStack(s', s'.threads[t], i) == OwnStack(s, s.threads[t], i);
    }
  }

  function WakeState(s: Sys, g: Fid): Sys
    requires g in s.fibers
  {
    s.(fibers := s.fibers[g := s.fibers[g].(impl := Woken(s.fibers[g].impl))])
  }

  lemma WakeSelf(s: Sys, log: seq<Event>, g: Fid)
    requires g in s.fibers && FiberOk(s, log, g) && s.fibers[g].impl.state == WAITING && !s.fibers[g].dying
    requires s.fibers[g].place.InChain? ==> ThreadOk(s, s.fibers[g].place.t)
    ensures FiberOk(WakeState(s, g), log + [WokeUp(g)], g)
  {
    hide Told, HeldBy, Active, Free, Linked;
    SummaryAppend(log, WokeUp(g), g);
    WakeTold(s.fibers[g], Summary(log, g));
    WakePlaced(s, g, Summary(log, g));
  }

  lemma WakeKeeps(s: Sys, log: seq<Event>, g: Fid)
    requires Inv(s, log) && g in s.fibers && s.fibers[g].impl.state == WAITING && !s.fibers[g].dying
    ensures Inv(WakeState(s, g), log + [WokeUp(g)])
  {
    var s' := WakeState(s, g);
    forall x | x in s'.fibers
      ensures FiberOk(s', log + [WokeUp(g)], x)
    {
      assert FiberOk(s, log, x);
      if x != g {
        WakeOther(s, log, g, x);
      } else {
        WakeSelf(s, log, g);
      }
    }
    forall u | u in s'.threads
      ensures ThreadOk(s', u)
    {
      WakeThread(s, g, u);
    }
    SameCount(s, g, s'.fibers[g]);
  }

  lemma WakeCallKeeps(s: Sys, log: seq<Event>, g: Fid)
    requires Inv(s, log)
    ensures var (s', e) := CallWake(s, g); Inv(s', log + [e])
  {
    hide Inv;
    if !Callable(s, g) {
      QuietKeeps(s, log, Nothing);
    } else if s.fibers[g].impl.state != WAITING {
      QuietKeeps(s, log, WakeIgnored(g));
    } else {
      WakeKeeps(s, log, g);
    }
  }

  /** A yield that no script prescribes changes nothing. */
  lemma StrayIs(s: Sys, log: seq<Event>, t: Tid, kind: YieldKind)
    requires Inv(s, log) && t in s.threads && s.threads[t].stack.pc == User
    ensures var (s', e) := CallStray(s, t, s.threads[t], kind);
            s' == s && (e == Nothing || e == YieldRejected(s.threads[t].stack.owner))
  {
    UserCode(s, log, t);
    var owner := s.threads[t].stack.owner;
    if owner.None? || kind == ToHold(NoReason) || s.fibers[owner.value].dying {
      StrayRejected(s, log, t, kind);
    }
  }

  lemma StrayKeeps(s: Sys, log: seq<Event>, t: Tid, kind: YieldKind)
    requires Inv(s, log) && t in s.threads && s.threads[t].stack.pc == User
    ensures var (s', e) := CallStray(s, t, s.threads[t], kind); Inv(s', log + [e])
  {
    hide Inv, Extend, CallStray;
    NothingIsSaid();
    StrayIs(s, log, t, kind);
    QuietKeeps(s, log, CallStray(s, t, s.threads[t], kind).1);
  }

  lemma NewOk(s: Sys, log: seq<Event>, body: Body)
    ensures var g := s.lastId + 1; FiberOk(WithFiber(s, body), log + [WasConstructed(g, body)], g)
  {
    SummaryAppend(log, WasConstructed(s.lastId + 1, body), s.lastId + 1);
  }

  lemma ConstructKeeps(s: Sys, log: seq<Event>, t: Tid, body: Body)
    requires Inv(s, log) && t in s.threads && s.threads[t].stack.pc == User
    ensures Inv(WithFiber(s, body), log + [WasConstructed(s.lastId + 1, body)])
  {
    var g, s', e := s.lastId + 1, WithFiber(s, body), WasConstructed(s.lastId + 1, body);
    assert ThreadOk(s, t);
    NewId(s, log);
    NewFrame(s, t, g, body);
    NewOk(s, log, body);
    assert About(e, g);
    StepKeeps(s, log, s', e, t, g);
  }

  lemma NewId(s: Sys, log: seq<Event>)
    requires Inv(s, log)
    ensures s.lastId + 1 !in s.fibers
  {
    forall g | g in s.fibers
      ensures g <= s.lastId
    {
      assert FiberOk(s, log, g);
    }
  }

  lemma ConstructCallKeeps(s: Sys, log: seq<Event>, t: Tid, body: Option<Body>)
    requires Inv(s, log) && t in s.threads && s.threads[t].stack.pc == User
    ensures var (s', e) := CallConstruct(s, body); Inv(s', log + [e])
  {
    if body.None? {
      assert CallConstruct(s, body) == (s.(lastId := s.lastId + 1), ConstructRejected);
      SameKeeps(s, log, s.(lastId := s.lastId + 1), ConstructRejected);
    } else {
      assert CallConstruct(s, body) == (WithFiber(s, body.value), WasConstructed(s.lastId + 1, body.value));
      ConstructKeeps(s, log, t, body.value);
    }
  }

  lemma NewFrame(s: Sys, t: Tid, g: Fid, body: Body)
    requires t in s.threads && ThreadOk(s, t) && g !in s.fibers && s.threads[t].stack.pc == User && g == s.lastId + 1
    ensures var s' := WithFiber(s, body);
            Touches(s, s', t, g) && Mine(s, t, g) && Undisturbed(s, s', t, g) && ThreadOk(s', t)
    ensures |WithFiber(s, body).fibers| == |s.fibers| + 1
  {
    var c := s.threads[t].chain;
    var s' := WithFiber(s, body);
    assert s'.fibers.Keys == s.fibers.Keys + {g};
    assert |s'.fibers| == |s'.fibers.Keys| && |s.fibers| == |s.fibers.Keys|;
    forall i | 0 <= i < |c|
      ensures Nested(s', t, i) && SameBelow(s, s', t, i)
    {
      assert Nested(s, t, i);
      if i + 1 < |c| {
        assert Nested(s, t, i + 1);
      }
    }
  }

  // ---- Every step, every run ----

  lemma AdvanceFinds(s: Sys, log: seq<Event>, t: Tid)
    requires Inv(s, log) && t in s.threads
    ensures PcFiber(s.threads[t].stack.pc).Some? ==> PcFiber(s.threads[t].stack.pc).value in s.fibers
    ensures s.threads[t].stack.pc.RunCaught? || s.threads[t].stack.pc.RunDone? ==> s.threads[t].stack.owner.Some?
  {
    hide FiberOk;
    assert ThreadOk(s, t);
  }

  lemma AdvanceKeeps(s: Sys, log: seq<Event>, t: Tid)
    requires Inv(s, log) && t in s.threads
    ensures var (s', e) := AdvanceThread(s, t, s.threads[t]); Inv(s', log + [e])
  {
    hide Inv, Extend, Summary;
    NothingIsSaid();
    AdvanceFinds(s, log, t);
    var pc := s.threads[t].stack.pc;
    if pc.YieldPublished? || pc.RunDone? {
      SwitchOutKeeps(s, log, t);
    } else if pc.RunCaught? {
      CaughtKeeps(s, log, t);
    } else if PcFiber(pc).None? {
      QuietKeeps(s, log, Nothing);
    } else if pc.ResumeGuarded? {
      SwitchInKeeps(s, log, t, pc.g, pc.prev);
    } else if pc.DestroyDone? {
      RemoveKeeps(s, log, t, pc.g, pc.prev);
    } else if pc.DestroyGuarded? {
      if s.fibers[pc.g].impl.context.None? || s.fibers[pc.g].impl.context.value.pc.Entry? {
        DropContextKeeps(s, log, t, pc.g, pc.prev);
      } else {
        UnwindKeeps(s, log, t, pc.g, pc.prev);
      }
    } else {
      MemberKeeps(s, log, t, PcFiber(pc).value);
    }
  }

  lemma CallKeeps(s: Sys, log: seq<Event>, a: Action)
    requires Inv(s, log) && a.t in s.threads && s.threads[a.t].stack.pc == User
    ensures var (s', e) := Call(s, a, s.threads[a.t]); Inv(s', log + [e])
  {
    match a
    case Construct(t, body) => ConstructCallKeeps(s, log, t, body);
    case Destroy(t, g) => DestroyCallKeeps(s, log, t, g);
    case Resume(t, g) => AcquireKeeps(s, log, t, g, ResumeHeld(g));
    case Reset(t, g, body) => AcquireKeeps(s, log, t, g, ResetHeld(g, body));
    case Wake(t, g) => WakeCallKeeps(s, log, g);
    case EndSegment(t) => EndKeeps(s, log, t);
    case StrayYield(t, kind) => StrayKeeps(s, log, t, kind);
    case EndCleanup(t) => CleanupKeeps(s, log, t);
    case Advance(t) => QuietKeeps(s, log, Nothing);
  }

  lemma ApplyKeeps(s: Sys, log: seq<Event>, a: Action)
    requires Inv(s, log)
    ensures var (s', e) := Apply(s, a); Inv(s', log + [e])
  {
    if s.halted || a.t !in s.threads || (!a.Advance? && s.threads[a.t].stack.pc != User) {
      QuietKeeps(s, log, Nothing);
    } else if a.Advance? {
      AdvanceKeeps(s, log, a.t);
    } else {
      CallKeeps(s, log, a);
    }
  }

  /** The invariant holds after every sequence of actions. */
  lemma {:induction false} Always(threads: set<Tid>, actions: seq<Action>)
    ensures Inv(Run(threads, actions).0, Run(threads, actions).1)
  {
    if actions == [] {
      assert |Initial(threads).fibers| == 0;
    } else {
      var before := actions[..|actions| - 1];
      Always(threads, before);
      ApplyKeeps(Run(threads, before).0, Run(threads, before).1, actions[|actions| - 1]);
    }
  }
}
