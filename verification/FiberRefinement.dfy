/** Seen from outside, a fiber is a sequential object: the events of every interleaving are ones that the object with
  * indivisible operations could have produced. */
module FiberRefinement {
  import opened Options
  import opened FiberTypes
  import opened FiberSteps
  import opened FiberInvariant
  import opened FiberPreservation

  /** The sequential object: when an event of fiber g may happen, given what has happened to g so far. */
  ghost predicate Legal(h: History, g: Fid, e: Event) {
    match e
    case WasConstructed(x, _) => x == g ==> h.body == None
    case Accepted(x) => x == g ==> h.mode.Idle? && Resumable(h.mode.state)
    case NotResumable(x) => x == g ==> h.mode.Idle? && !Resumable(h.mode.state)
    case NoContext(x) => x != g
    case SegmentStarted(x, k) => x == g ==> h.mode == Busy(false) && k == |h.segments| == |h.results|
    case SegmentEnded(x, state) =>
      x == g ==> h.mode == Busy(true) && h.body.Some? && state == Outcome(h.body.value(|h.results|))
    case Returned(x, state) => x == g ==> h.mode.Stopped? && state == h.mode.result
    case WokeUp(x) => x == g ==> Now(h.mode) == WAITING
    case WakeIgnored(x) => x == g ==> Now(h.mode) != WAITING
    case NotFinished(x) => x == g ==> h.mode.Idle? && !Finished(h.mode.state)
    case EmptyReset(x) => x == g ==> h.mode.Idle? && Finished(h.mode.state)
    case SelfReset(x) => x != g
    case WasReset(x, _) => x == g ==> h.mode.Idle? && Finished(h.mode.state)
    case WasDestroyed(x) => x == g ==> h.mode.Idle?
    case _ => true   // overlapping calls and stray yields depend on more than the history: see FiberTheorems
  }

  /** No fiber is heard of before its construction. */
  ghost predicate Unborn(s: Sys, log: seq<Event>) {
    forall g :: g > s.lastId ==> Summary(log, g) == Summary([], g)
  }

  function Subject(e: Event): Option<Fid> {
    match e
    case WasConstructed(g, _) => Some(g)
    case WasDestroyed(g) => Some(g)
    case NotResumable(g) => Some(g)
    case NoContext(g) => Some(g)
    case Accepted(g) => Some(g)
    case SegmentStarted(g, _) => Some(g)
    case SegmentEnded(g, _) => Some(g)
    case Returned(g, _) => Some(g)
    case WokeUp(g) => Some(g)
    case WakeIgnored(g) => Some(g)
    case NotFinished(g) => Some(g)
    case SelfReset(g) => Some(g)
    case EmptyReset(g) => Some(g)
    case WasReset(g, _) => Some(g)
    case _ => None
  }

  lemma NotAbout(h: History, g: Fid, e: Event)
    requires Subject(e) != Some(g)
    ensures Legal(h, g, e) && Extend(h, g, e) == h
  {
  }

  lemma MemberLegal(pc: Pc, current: Option<Fid>, top: Option<Fid>, g: Fid, f: Fiber, h: History)
    requires PcFiber(pc) == Some(g) && (InResume(pc) || InReset(pc)) && CurrentOk(pc, current, top)
    requires top != Some(g)
    requires HeldBy(pc, g, f, h)
    ensures Legal(h, g, MemberStep(pc, current, g, f.impl).event)
    ensures var e := MemberStep(pc, current, g, f.impl).event; Subject(e) == None || Subject(e) == Some(g)
  {
  }

  /** The fiber of a call in progress is not among those nested on the thread. */
  lemma NotNested(s: Sys, t: Tid)
    requires t in s.threads && ThreadOk(s, t)
    ensures PcFiber(s.threads[t].stack.pc).Some? ==> PcFiber(s.threads[t].stack.pc) != Top(s.threads[t].chain)
  {
    var c := s.threads[t].chain;
    if c != [] {
      assert Nested(s, t, |c| - 1);
    }
  }

  /** The event of a step is about a fiber that exists, and legal for it. */
  ghost predicate LegalHere(s: Sys, log: seq<Event>, e: Event) {
    Subject(e).Some? ==>
      var g := Subject(e).value;
      && (g in s.fibers || (e.WasConstructed? && g == s.lastId + 1))
      && Legal(Summary(log, g), g, e)
  }

  lemma MemberEvent(s: Sys, t: Tid, g: Fid)
    requires t in s.threads && g in s.fibers && PcFiber(s.threads[t].stack.pc) == Some(g)
    requires InResume(s.threads[t].stack.pc) || InReset(s.threads[t].stack.pc)
    ensures var th := s.threads[t];
            AdvanceThread(s, t, th).1 == MemberStep(th.stack.pc, th.current, g, s.fibers[g].impl).event
  {
  }

  lemma HeldLegal(s: Sys, log: seq<Event>, t: Tid, g: Fid)
    requires Inv(s, log) && t in s.threads && PcFiber(s.threads[t].stack.pc) == Some(g)
    requires InResume(s.threads[t].stack.pc) || InReset(s.threads[t].stack.pc)
    ensures LegalHere(s, log, AdvanceThread(s, t, s.threads[t]).1)
  {
    hide Told, HeldBy, Active, Free, Extend, Summary, Legal, Linked;
    assert ThreadOk(s, t) && FiberOk(s, log, g);
    NotNested(s, t);
    var th := s.threads[t];
    MemberLegal(th.stack.pc, th.current, Top(th.chain), g, s.fibers[g], Summary(log, g));
    MemberEvent(s, t, g);
  }

  lemma EntryLegal(s: Sys, log: seq<Event>, t: Tid, g: Fid)
    requires Inv(s, log) && t in s.threads && PcFiber(s.threads[t].stack.pc) == Some(g)
    requires var pc := s.threads[t].stack.pc; pc.ResumeGuarded? || pc.DestroyGuarded? || pc.DestroyDone?
    ensures LegalHere(s, log, AdvanceThread(s, t, s.threads[t]).1)
  {
    hide Told, Extend, Linked, Active, Free, OwnStack, Nested, CurrentOk, Running;
    assert ThreadOk(s, t) && FiberOk(s, log, g);
  }

  lemma AdvanceLegal(s: Sys, log: seq<Event>, t: Tid)
    requires Inv(s, log) && t in s.threads
    ensures LegalHere(s, log, AdvanceThread(s, t, s.threads[t]).1)
  {
    hide Told, HeldBy, Free, Extend, Summary, Linked, Inv;
    InvThread(s, log, t);
    var pc := s.threads[t].stack.pc;
    if pc.RunCaught? {
      RunningFiber(s, log, t);
    } else if pc.ResumeGuarded? || pc.DestroyGuarded? || pc.DestroyDone? {
      EntryLegal(s, log, t, PcFiber(pc).value);
    } else if PcFiber(pc).Some? {
      HeldLegal(s, log, t, PcFiber(pc).value);
    }
  }

  lemma EndLegal(s: Sys, log: seq<Event>, t: Tid)
    requires Inv(s, log) && t in s.threads && s.threads[t].stack.pc == User
    ensures LegalHere(s, log, CallEnd(s, t, s.threads[t]).1)
  {
    hide Told, Linked, Inv;
    UserCode(s, log, t);
    var th := s.threads[t];
    if th.stack.owner.Some? && !s.fibers[th.stack.owner.value].dying {
      var x := th.stack.owner.value;
      match s.fibers[x].impl.callback.value(th.stack.pos)
      case EndReady => YieldIs(s, t, x, ToReady);
      case EndHold(reason) => YieldIs(s, t, x, ToHold(reason));
      case EndReturn =>
      case EndThrow =>
    }
  }

  /** The mode that the events leave a fiber in tells its state. */
  lemma ModeTells(s: Sys, log: seq<Event>, g: Fid)
    requires g in s.fibers && FiberOk(s, log, g) && !s.fibers[g].dying
    ensures Now(Summary(log, g).mode) == s.fibers[g].impl.state
  {
  }

  lemma WakeLegal(s: Sys, log: seq<Event>, g: Fid)
    requires Inv(s, log)
    ensures LegalHere(s, log, CallWake(s, g).1)
  {
    hide Told, Placed, ThreadOk, Summary;
    if Callable(s, g) {
      assert FiberOk(s, log, g);
      ModeTells(s, log, g);
    }
  }

  lemma SilentCalls(s: Sys, t: Tid, th: Thread, g: Fid, pc: Pc)
    ensures Subject(CallDestroy(s, t, th, g).1) == None
    ensures Subject(CallMember(s, t, th, g, pc).1) == None
    ensures Subject(FinishCleanup(s, t, th).1) == None
  {
  }

  lemma CallLegal(s: Sys, log: seq<Event>, a: Action)
    requires Inv(s, log) && Unborn(s, log) && a.t in s.threads && s.threads[a.t].stack.pc == User
    ensures LegalHere(s, log, Call(s, a, s.threads[a.t]).1)
  {
    hide Inv;
    match a
    case Construct(t, body) =>
    case Destroy(t, g) => SilentCalls(s, t, s.threads[t], g, User);
    case Resume(t, g) => SilentCalls(s, t, s.threads[t], g, ResumeHeld(g));
    case Reset(t, g, body) => SilentCalls(s, t, s.threads[t], g, ResetHeld(g, body));
    case Wake(t, g) => WakeLegal(s, log, g);
    case EndSegment(t) => EndLegal(s, log, t);
    case StrayYield(t, kind) => StrayIs(s, log, t, kind);
    case EndCleanup(t) => SilentCalls(s, t, s.threads[t], 0, User);
    case Advance(t) =>
  }

  lemma StepLegal(s: Sys, log: seq<Event>, a: Action)
    requires Inv(s, log) && Unborn(s, log)
    ensures LegalHere(s, log, Apply(s, a).1)
  {
    hide Legal, Inv, Unborn, Call, AdvanceThread, Summary;
    if !s.halted && a.t in s.threads {
      if a.Advance? {
        AdvanceLegal(s, log, a.t);
      } else if s.threads[a.t].stack.pc == User {
        CallLegal(s, log, a);
      }
    }
  }

  lemma IdsGrow(s: Sys, a: Action)
    ensures var (s', e) := Apply(s, a); s'.lastId == s.lastId || s'.lastId == s.lastId + 1
    ensures Apply(s, a).1.WasConstructed? ==> Apply(s, a).0.lastId == s.lastId + 1
  {
  }

  lemma UnbornKeeps(s: Sys, log: seq<Event>, a: Action)
    requires Inv(s, log) && Unborn(s, log)
    ensures var (s', e) := Apply(s, a); Unborn(s', log + [e])
  {
    hide Apply, Told, Placed, Legal;
    var (s', e) := Apply(s, a);
    StepLegal(s, log, a);
    IdsGrow(s, a);
    forall x | x in s.fibers
      ensures x <= s.lastId
    {
      assert FiberOk(s, log, x);
    }
    forall g | g > s'.lastId
      ensures Summary(log + [e], g) == Summary([], g)
    {
      SummaryAppend(log, e, g);
      NotAbout(Summary(log, g), g, e);
    }
  }

  /** Every event in the log is one that the sequential object could have produced at that point. */
  ghost predicate Sequential(log: seq<Event>, g: Fid) {
    forall j :: 0 <= j < |log| ==> Legal(Summary(log[..j], g), g, log[j])
  }

  lemma LegalForAll(s: Sys, log: seq<Event>, e: Event, g: Fid)
    requires LegalHere(s, log, e)
    ensures Legal(Summary(log, g), g, e)
  {
    if Subject(e) != Some(g) {
      NotAbout(Summary(log, g), g, e);
    }
  }

  lemma {:induction false} RunsAreSequential(threads: set<Tid>, actions: seq<Action>, g: Fid)
    ensures Sequential(Run(threads, actions).1, g)
    ensures Unborn(Run(threads, actions).0, Run(threads, actions).1)
  {
    hide Legal, Extend, Apply, Inv, LegalHere;
    if actions != [] {
      var (s, log) := Run(threads, actions[..|actions| - 1]);
      var a := actions[|actions| - 1];
      var e := Apply(s, a).1;
      RunsAreSequential(threads, actions[..|actions| - 1], g);
      Always(threads, actions[..|actions| - 1]);
      UnbornKeeps(s, log, a);
      StepLegal(s, log, a);
      assert Legal(Summary(log, g), g, e) by {
        LegalForAll(s, log, e, g);
      }
      forall j | 0 <= j < |log + [e]|
        ensures Legal(Summary((log + [e])[..j], g), g, (log + [e])[j])
      {
        if j == |log| {
          assert (log + [e])[..j] == log;
        } else {
          assert (log + [e])[..j] == log[..j];
        }
      }
    }
  }
}
